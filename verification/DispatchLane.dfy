/**
 The dispatch lane as a state machine: what one synchronous call, or one stretch of the worker
 between two awaits, does to the lane. The log numbers everything that happens; an item's ticket is
 the position of its acceptance.
 */
module DispatchLane {
  import opened Base
  import opened Remote

  type Owner = nat

  datatype Item = Item(ticket: nat, owner: Owner, command: Command, generation: Option<nat>, completion: Option<nat>,
                       cancelled: bool)

  datatype Outcome = Pending | Done | Failed | Cancelled

  /** The worker task: never started or drained, alive, alive with a cancellation on its way, ended. */
  datatype Worker = Absent | Running | Interrupted | Dead

  datatype Event =
    | Activated(owner: Owner)
    | Accepted(item: Item)
    | Replaced(ticket: nat, owner: Owner, command: Command)
    | Began(item: Item)
    | PutDown(item: Item, ending: Ending)  // the worker is done with it, and how that came about
    | Ended(owner: Owner)
    | Stopped(owner: Owner, generation: nat)
    | Closed

  type Log = seq<Event>

  datatype State = State(
    queue: seq<Item>, owners: set<Owner>, current: Option<Item>, completions: seq<Outcome>,
    worker: Worker, stopping: bool, wake: bool, log: Log)

  /** Why queued work is thrown away. */
  datatype Doom = OfOwner(owner: Owner) | OfGeneration(owner: Owner, generation: nat) | Everything

  predicate Hits(d: Doom, item: Item) {
    match d
    case OfOwner(o) => item.owner == o
    case OfGeneration(o, g) => item.owner == o && item.generation == Some(g)
    case Everything => true
  }

  function Notice(d: Doom): Event {
    match d
    case OfOwner(o) => Ended(o)
    case OfGeneration(o, g) => Stopped(o, g)
    case Everything => Closed
  }

  // ---------------------------------------------------------------- the operations

  function Kept(q: seq<Item>, d: Doom): seq<Item> {
    if q == [] then []
    else if Hits(d, q[0]) then Kept(q[1..], d)
    else [q[0]] + Kept(q[1..], d)
  }

  /** A completion is settled at most once: only a pending one changes. */
  function Settle(cs: seq<Outcome>, c: Option<nat>, o: Outcome): seq<Outcome> {
    if c.Some? && c.value < |cs| && cs[c.value] == Pending then cs[c.value := o] else cs
  }

  function CancelDoomed(cs: seq<Outcome>, q: seq<Item>, d: Doom): seq<Outcome>
    decreases |q|
  {
    if q == [] then cs
    else CancelDoomed(if Hits(d, q[0]) then Settle(cs, q[0].completion, Cancelled) else cs, q[1..], d)
  }

  /** Purge what `d` hits from the queue; mark the running command and interrupt the worker, unless
      it is the worker that asks. */
  function Purge(s: State, d: Doom, byWorker: bool): State {
    var hit := s.current.Some? && Hits(d, s.current.value);
    var cs := CancelDoomed(s.completions, s.queue, d);
    s.(queue := Kept(s.queue, d),
       completions := if hit then Settle(cs, s.current.value.completion, Cancelled) else cs,
       current := if hit then Some(s.current.value.(cancelled := true)) else s.current,
       worker := if hit && !byWorker && s.worker == Running then Interrupted else s.worker,
       owners := Remaining(s.owners, d),
       log := s.log + [Notice(d)])
  }

  function Remaining(owners: set<Owner>, d: Doom): set<Owner> {
    match d
    case OfOwner(o) => owners - {o}
    case OfGeneration(_, _) => owners
    case Everything => {}
  }

  function Deactivate(s: State, owner: Owner, byWorker: bool): State {
    Purge(s, OfOwner(owner), byWorker).(wake := true)
  }

  function CancelGeneration(s: State, owner: Owner, generation: nat, byWorker: bool): State {
    var d := OfGeneration(owner, generation);
    var dropped := (exists x <- s.queue :: Hits(d, x)) || (s.current.Some? && Hits(d, s.current.value));
    Purge(s, d, byWorker).(wake := s.wake || dropped)
  }

  function CloseBegin(s: State): State {
    if s.stopping then s else
    Purge(s, Everything, false).(
      stopping := true, wake := true,
      worker := if s.worker == Running then Interrupted else s.worker)
  }

  /** After the cancelled worker has been awaited. */
  function CloseEnd(s: State): State {
    s.(worker := Absent, current := None)
  }

  function Started(w: Worker): Worker {
    if w.Absent? || w.Dead? then Running else w
  }

  function Activate(s: State, owner: Owner): State {
    if s.stopping then s
    else s.(worker := Started(s.worker), owners := s.owners + {owner}, log := s.log + [Activated(owner)])
  }

  predicate Coalesces(s: State, owner: Owner, command: Command, wait: bool) {
    && command.action == SendText && !wait && s.queue != []
    && var last := s.queue[|s.queue| - 1]; last.owner == owner && last.completion.None? && last.command.action == SendText
  }

  function Replace(s: State, command: Command): State
    requires s.queue != []
  {
    var n := |s.queue| - 1;
    s.(queue := s.queue[n := s.queue[n].(command := command)],
       log := s.log + [Replaced(s.queue[n].ticket, s.queue[n].owner, command)])
  }

  /** Append, with a completion of its own when the caller wants to wait for the outcome. */
  function Append(s: State, owner: Owner, command: Command, generation: Option<nat>, wait: bool): State {
    var item := Item(|s.log|, owner, command, generation, if wait then Some(|s.completions|) else None, false);
    s.(queue := s.queue + [item], wake := true, log := s.log + [Accepted(item)],
       completions := if wait then s.completions + [Pending] else s.completions)
  }

  /** Handing in a command: the new state, and whether it was taken. */
  function Enqueue(s: State, max: nat, owner: Owner, command: Command, generation: Option<nat>, wait: bool,
                   authorized: bool): (State, bool) {
    if s.stopping || owner !in s.owners then (s, false)
    else if !authorized then (Deactivate(s, owner, false), false)
    else if Coalesces(s, owner, command, wait) then (Replace(s, command), true)
    else if |s.queue| >= max then (s, false)
    else (Append(s, owner, command, generation, wait), true)
  }

  /** As handed in by a caller that waits: a refused command's completion is cancelled at once. */
  function EnqueueAndWait(s: State, max: nat, owner: Owner, command: Command, generation: nat, authorized: bool): (State, bool) {
    var (t, taken) := Enqueue(s, max, owner, command, Some(generation), true, authorized);
    (if taken then t else t.(completions := t.completions + [Cancelled]), taken)
  }

  /** The worker takes the next item, asks once more whether its owner may act, and starts it. */
  function Pop(s: State, authorized: bool): State
    requires s.queue != []
  {
    var item := s.queue[0];
    var s := s.(queue := s.queue[1..]);
    if item.owner !in s.owners || !authorized then
      var s := if item.owner in s.owners then Deactivate(s, item.owner, true) else s;
      s.(completions := Settle(s.completions, item.completion, Cancelled))
    else if item.cancelled then
      s.(completions := Settle(s.completions, item.completion, Cancelled))
    else
      s.(current := Some(item), log := s.log + [Began(item)])
  }

  /** How the television answered, or how the dispatch was cut short. */
  datatype Ending = Succeeded | Broke | Revoked | CutShort

  function Finish(s: State, e: Ending): State
    requires s.current.Some?
  {
    var item := s.current.value;
    var s := s.(log := s.log + [PutDown(item, e)]);
    match e
    case Succeeded => s.(completions := Settle(s.completions, item.completion, Done), current := None)
    case Broke => s.(completions := Settle(s.completions, item.completion, Failed), current := None)
    case Revoked => Deactivate(s, item.owner, true).(current := None)
    case CutShort =>
      s.(completions := Settle(s.completions, item.completion, Cancelled), current := None,
         worker := if s.stopping || !(item.cancelled || item.owner !in s.owners) then Dead else Running)
  }

  // ---------------------------------------------------------------- what every step keeps

  /** The owner was activated and has not been ended since. */
  ghost predicate ActiveAt(log: Log, owner: Owner, n: nat) {
    exists k :: 0 <= k < n <= |log| && log[k] == Activated(owner) && !EndedWithin(log, owner, k, n)
  }

  ghost predicate EndedWithin(log: Log, owner: Owner, i: nat, j: nat) {
    exists k :: i <= k < j <= |log| && (log[k] == Ended(owner) || log[k] == Closed)
  }

  /** Something since the item's acceptance threw it away. */
  ghost predicate Doomed(log: Log, item: Item, n: nat) {
    exists k :: item.ticket <= k < n <= |log| && Cancels(log[k], item)
  }

  predicate Cancels(e: Event, item: Item) {
    || e == Ended(item.owner)
    || e == Closed
    || (item.generation.Some? && e == Stopped(item.owner, item.generation.value))
  }

  predicate SameTicket(a: Item, b: Item) {
    a.ticket == b.ticket && a.owner == b.owner && a.generation == b.generation && a.completion == b.completion
  }

  ghost predicate Genuine(log: Log, item: Item) {
    item.ticket < |log| && log[item.ticket].Accepted? && SameTicket(log[item.ticket].item, item)
  }

  /** Whatever began had been accepted, for an owner active then and ever since, and was not thrown
      away in between; and things begin in the order they were accepted. */
  ghost predicate BeganWell(log: Log, j: nat)
    requires j < |log| && log[j].Began?
  {
    var item := log[j].item;
    && Genuine(log, item) && item.ticket < j
    && ActiveAt(log, item.owner, j) && !Doomed(log, item, j)
  }

  ghost predicate History(log: Log) {
    && (forall j | 0 <= j < |log| && log[j].Began? :: BeganWell(log, j))
    && (forall i, j | 0 <= i < j < |log| && log[i].Began? && log[j].Began? :: log[i].item.ticket < log[j].item.ticket)
  }

  /** In hand: the running item, unless it was cancelled, and whatever is queued. */
  predicate InHand(s: State, x: Item) {
    x in s.queue || (s.current == Some(x) && !x.cancelled)
  }

  predicate Held(s: State, x: Item) {
    x in s.queue || s.current == Some(x)
  }

  ghost predicate Awaited(s: State, c: nat) {
    exists x :: InHand(s, x) && x.completion == Some(c)
  }

  /** In the log as accepted, with a completion that exists. */
  ghost predicate Known(s: State, x: Item) {
    Genuine(s.log, x) && (x.completion.Some? ==> x.completion.value < |s.completions|)
  }

  ghost predicate Fit(s: State, x: Item) {
    !x.cancelled && x.owner in s.owners && !Doomed(s.log, x, |s.log|)
  }

  ghost predicate Inv(s: State, max: nat) {
    && |s.queue| <= max
    && (s.queue != [] ==> s.wake)
    && (s.stopping ==> s.queue == [] && s.owners == {})
    && (forall o | o in s.owners :: ActiveAt(s.log, o, |s.log|))
    && (forall x | InHand(s, x) :: Fit(s, x))
    && (forall x | Held(s, x) :: Known(s, x))
    && InOrder(s)
    && CompletionsInv(s)
    && History(s.log)
  }

  predicate Ascending(q: seq<Item>) {
    forall i, j | 0 <= i < j < |q| :: q[i].ticket < q[j].ticket
  }

  ghost predicate InOrder(s: State) {
    && Ascending(s.queue)
    && (forall i, x | 0 <= i < |s.log| && s.log[i].Began? && x in s.queue :: s.log[i].item.ticket < x.ticket)
    && (s.current.Some? ==> forall x | x in s.queue :: s.current.value.ticket < x.ticket)
  }

  /** A completion is pending exactly while some item in hand will settle it, and no two items share one. */
  ghost predicate CompletionsInv(s: State) {
    && (forall c | 0 <= c < |s.completions| :: s.completions[c] == Pending <==> Awaited(s, c))
    && (forall x, y | Held(s, x) && Held(s, y) && x.completion.Some? && x.completion == y.completion :: x == y)
  }

  // ---------------------------------------------------------------- purging

  lemma {:induction false} KeptIs(q: seq<Item>, d: Doom)
    ensures forall x :: x in Kept(q, d) <==> x in q && !Hits(d, x)
    ensures |Kept(q, d)| <= |q|
  {
    if q != [] {
      KeptIs(q[1..], d);
      assert q == [q[0]] + q[1..];
    }
  }

  lemma {:induction false} KeptInOrder(q: seq<Item>, d: Doom)
    requires Ascending(q)
    ensures Ascending(Kept(q, d))
  {
    if q != [] {
      var rest := q[1..];
      KeptInOrder(rest, d);
      KeptIs(rest, d);
      var k := Kept(rest, d);
      forall x | x in k ensures q[0].ticket < x.ticket {
        var m :| 0 <= m < |rest| && rest[m] == x;
        assert q[m + 1] == x;
      }
    }
  }

  lemma {:induction false} CancelDoomedIs(cs: seq<Outcome>, q: seq<Item>, d: Doom)
    ensures |CancelDoomed(cs, q, d)| == |cs|
    ensures forall c | 0 <= c < |cs| ::
              CancelDoomed(cs, q, d)[c]
              == if cs[c] == Pending && HitBy(q, d, c) then Cancelled else cs[c]
    decreases |q|
  {
    hide HitBy;
    if q == [] {
      assert forall c: nat :: !HitBy(q, d, c) by {
        NothingHit(d);
      }
    } else {
      var cs1 := if Hits(d, q[0]) then Settle(cs, q[0].completion, Cancelled) else cs;
      CancelDoomedIs(cs1, q[1..], d);
      HitByHeadOrTail(q, d);
    }
  }

  lemma NothingHit(d: Doom)
    ensures forall c: nat :: !HitBy([], d, c)
  {
  }

  lemma HitByHeadOrTail(q: seq<Item>, d: Doom)
    requires q != []
    ensures forall c: nat :: HitBy(q, d, c) <==> (Hits(d, q[0]) && q[0].completion == Some(c)) || HitBy(q[1..], d, c)
  {
    assert q == [q[0]] + q[1..];
  }

  predicate HitBy(q: seq<Item>, d: Doom, c: nat) {
    exists x <- q :: Hits(d, x) && x.completion == Some(c)
  }

  // ---------------------------------------------------------------- what the log remembers

  lemma LogGrows(log: Log, e: Event)
    ensures forall o, n: nat | n <= |log| && ActiveAt(log, o, n) :: ActiveAt(log + [e], o, n)
    ensures forall o | ActiveAt(log, o, |log|) && e != Ended(o) && e != Closed :: ActiveAt(log + [e], o, |log| + 1)
    ensures forall x | Genuine(log, x) :: Genuine(log + [e], x)
    ensures forall x, n: nat | n <= |log| && !Doomed(log, x, n) :: !Doomed(log + [e], x, n)
    ensures forall x | !Doomed(log, x, |log|) && !Cancels(e, x) :: !Doomed(log + [e], x, |log| + 1)
  {
    forall o, n: nat | n <= |log| && ActiveAt(log, o, n) ensures ActiveAt(log + [e], o, n) {
      var k :| 0 <= k < n <= |log| && log[k] == Activated(o) && !EndedWithin(log, o, k, n);
      assert (log + [e])[k] == Activated(o) && !EndedWithin(log + [e], o, k, n);
    }
    forall o | ActiveAt(log, o, |log|) && e != Ended(o) && e != Closed ensures ActiveAt(log + [e], o, |log| + 1) {
      var k :| 0 <= k < |log| && log[k] == Activated(o) && !EndedWithin(log, o, k, |log|);
      assert (log + [e])[k] == Activated(o) && !EndedWithin(log + [e], o, k, |log| + 1);
    }
  }

  lemma HistoryGrows(log: Log, e: Event)
    requires History(log)
    requires e.Began? ==>
               && Genuine(log, e.item) && ActiveAt(log, e.item.owner, |log|) && !Doomed(log, e.item, |log|)
               && forall i | 0 <= i < |log| && log[i].Began? :: log[i].item.ticket < e.item.ticket
    ensures History(log + [e])
  {
    LogGrows(log, e);
    var grown := log + [e];
    forall j | 0 <= j < |grown| && grown[j].Began? ensures BeganWell(grown, j) {
      assert j < |log| ==> log[j] == grown[j] && BeganWell(log, j);
    }
  }

  // ---------------------------------------------------------------- what every step keeps

  /** A purge takes what it hits and leaves everything else in hand. */
  lemma PurgeHands(s: State, d: Doom, byWorker: bool)
    ensures forall x :: InHand(Purge(s, d, byWorker), x) <==> InHand(s, x) && !Hits(d, x)
  {
    KeptIs(s.queue, d);
    forall x | s.current == Some(x) && !x.cancelled && !Hits(d, x) ensures InHand(Purge(s, d, byWorker), x) {
    }
  }

  lemma PurgeKeepsFit(s: State, d: Doom, byWorker: bool, max: nat)
    requires Inv(s, max)
    ensures var t := Purge(s, d, byWorker);
            && (forall x | InHand(t, x) :: Fit(t, x) && InHand(s, x) && !Hits(d, x))
            && (forall o | o in t.owners :: ActiveAt(t.log, o, |t.log|))
  {
    var t := Purge(s, d, byWorker);
    KeptIs(s.queue, d);
    CancelDoomedIs(s.completions, s.queue, d);
    LogGrows(s.log, Notice(d));
    forall x | InHand(t, x) ensures Fit(t, x) && InHand(s, x) && !Hits(d, x) {
      assert InHand(s, x) && !Hits(d, x);
      assert Fit(s, x) && !Cancels(Notice(d), x);
    }
  }

  lemma PurgeKeepsKnown(s: State, d: Doom, byWorker: bool, max: nat)
    requires Inv(s, max)
    ensures var t := Purge(s, d, byWorker); forall x | Held(t, x) :: Known(t, x)
  {
    hide History, ActiveAt, Doomed, CompletionsInv;
    var t := Purge(s, d, byWorker);
    KeptIs(s.queue, d);
    CancelDoomedIs(s.completions, s.queue, d);
    LogGrows(s.log, Notice(d));
    forall x | Held(t, x) ensures Known(t, x) {
      var y := if x in t.queue then x else s.current.value;
      assert Held(s, y) && Known(s, y) && SameTicket(x, y);
    }
  }

  lemma PurgeKeepsCompletions(s: State, d: Doom, byWorker: bool, max: nat)
    requires Inv(s, max)
    ensures CompletionsInv(Purge(s, d, byWorker))
  {
    hide History, ActiveAt, Genuine, Doomed;
    var t := Purge(s, d, byWorker);
    KeptIs(s.queue, d);
    CancelDoomedIs(s.completions, s.queue, d);
    forall c | 0 <= c < |t.completions| ensures t.completions[c] == Pending <==> Awaited(t, c) {
      if Awaited(t, c) {
        var x :| InHand(t, x) && x.completion == Some(c);
        assert InHand(s, x) && Awaited(s, c);
        assert !HitBy(s.queue, d, c);
      } else if s.completions[c] == Pending {
        assert Awaited(s, c);
        var x :| InHand(s, x) && x.completion == Some(c);
        assert !InHand(t, x);
        assert x in s.queue ==> HitBy(s.queue, d, c);
      }
    }
    forall x, y | Held(t, x) && Held(t, y) && x.completion.Some? && x.completion == y.completion ensures x == y {
      assert x in t.queue ==> Held(s, x);
      assert y in t.queue ==> Held(s, y);
    }
  }

  lemma PurgeKeeps(s: State, d: Doom, byWorker: bool, max: nat)
    requires Inv(s, max)
    ensures Inv(Purge(s, d, byWorker), max)
  {
    hide ActiveAt, Genuine, Doomed, CompletionsInv;
    PurgeKeepsFit(s, d, byWorker, max);
    PurgeKeepsKnown(s, d, byWorker, max);
    PurgeKeepsCompletions(s, d, byWorker, max);
    HistoryGrows(s.log, Notice(d));
    KeptIs(s.queue, d);
    KeptInOrder(s.queue, d);
  }

  lemma ActivateKeeps(s: State, owner: Owner, max: nat)
    requires Inv(s, max)
    ensures Inv(Activate(s, owner), max)
  {
    hide History, Genuine, Doomed;
    var t := Activate(s, owner);
    if !s.stopping {
      LogGrows(s.log, Activated(owner));
      HistoryGrows(s.log, Activated(owner));
      assert t.log[|s.log|] == Activated(owner) && !EndedWithin(t.log, owner, |s.log|, |t.log|);
      forall x | InHand(t, x) ensures Fit(t, x) {
        assert Fit(s, x) && !Cancels(Activated(owner), x);
      }
      SameHands(s, t);
    }
  }

  /** Completions depend only on who holds what. */
  lemma SameHands(s: State, t: State)
    requires CompletionsInv(s) && s.completions == t.completions
    requires forall x :: InHand(s, x) <==> InHand(t, x)
    requires forall x | Held(t, x) :: Held(s, x)
    ensures CompletionsInv(t)
  {
    SameAwaited(s, t);
  }

  lemma SameAwaited(s: State, t: State)
    requires forall x :: InHand(s, x) <==> InHand(t, x)
    ensures forall c: nat :: Awaited(s, c) <==> Awaited(t, c)
  {
    forall c: nat ensures Awaited(s, c) <==> Awaited(t, c) {
      if Awaited(s, c) {
        var x :| InHand(s, x) && x.completion == Some(c);
        assert InHand(t, x);
      }
    }
  }

  /** The worker task and its wake flag touch nothing else. */
  lemma Aside(s: State, t: State, max: nat)
    requires Inv(s, max) && t == s.(worker := t.worker, wake := t.wake) && (s.wake ==> t.wake)
    ensures Inv(t, max)
  {
    hide History, ActiveAt, Doomed, Genuine;
    SameHands(s, t);
    assert forall x | Held(t, x) :: Held(s, x) && Known(s, x);
    assert forall x | InHand(t, x) :: InHand(s, x) && Fit(s, x);
  }

  lemma ReplaceKeeps(s: State, command: Command, max: nat)
    requires Inv(s, max) && s.queue != [] && s.queue[|s.queue| - 1].completion.None?
    ensures Inv(Replace(s, command), max)
  {
    hide History, ActiveAt, Doomed, Genuine, CompletionsInv;
    var t, n := Replace(s, command), |s.queue| - 1;
    var was, item := s.queue[n], t.queue[n];
    var e := Replaced(was.ticket, was.owner, command);
    LogGrows(s.log, e);
    HistoryGrows(s.log, e);
    ReplaceKeepsCompletions(s, t, was, item);
    ReplaceKeepsOrder(s, t, e);
    forall x | InHand(t, x) ensures Fit(t, x) {
      var y := if x in s.queue || x != item then x else was;
      assert InHand(s, y) && Fit(s, y) && !Cancels(e, y);
      SameTicketSameDoom(t.log, x, y, |t.log|);
    }
    forall x | Held(t, x) ensures Known(t, x) {
      var y := if x in s.queue || x != item then x else was;
      assert Held(s, y) && Known(s, y);
      SameTicketSameDoom(t.log, x, y, |t.log|);
    }
  }

  predicate TicketIn(x: Item, q: seq<Item>) {
    exists y <- q :: y.ticket == x.ticket
  }

  lemma ReplaceKeepsOrder(s: State, t: State, e: Event)
    requires InOrder(s) && s.queue != [] && t.current == s.current && t.log == s.log + [e] && !e.Began?
    requires |t.queue| == |s.queue| && forall i | 0 <= i < |s.queue| :: t.queue[i].ticket == s.queue[i].ticket
    ensures InOrder(t)
  {
    forall x | x in t.queue ensures TicketIn(x, s.queue) {
      var i :| 0 <= i < |t.queue| && t.queue[i] == x;
      assert s.queue[i] in s.queue;
    }
    forall i, x | 0 <= i < |t.log| && t.log[i].Began? && x in t.queue ensures t.log[i].item.ticket < x.ticket {
      assert s.log[i] == t.log[i] && TicketIn(x, s.queue);
    }
  }

  lemma ReplaceKeepsCompletions(s: State, t: State, was: Item, item: Item)
    requires CompletionsInv(s) && t.completions == s.completions && t.current == s.current
    requires s.queue != [] && was == s.queue[|s.queue| - 1] && t.queue == s.queue[|s.queue| - 1 := item]
    requires was.completion.None? && item.completion.None?
    ensures CompletionsInv(t)
  {
    forall x: Item | x.completion.Some? ensures x in t.queue <==> x in s.queue {
      if x in s.queue {
        var i :| 0 <= i < |s.queue| && s.queue[i] == x;
        assert t.queue[i] == x;
      }
    }
    forall c | 0 <= c < |t.completions| ensures Awaited(s, c) <==> Awaited(t, c) {
      if Awaited(s, c) {
        var x :| InHand(s, x) && x.completion == Some(c);
        assert InHand(t, x);
      }
    }
    assert forall x | Held(t, x) && x.completion.Some? :: Held(s, x);
  }

  lemma SameTicketSameDoom(log: Log, x: Item, y: Item, n: nat)
    requires SameTicket(x, y)
    ensures Doomed(log, x, n) <==> Doomed(log, y, n)
    ensures Genuine(log, x) <==> Genuine(log, y)
  {
  }

  lemma AppendKeeps(s: State, owner: Owner, command: Command, generation: Option<nat>, wait: bool, max: nat)
    requires Inv(s, max) && owner in s.owners && !s.stopping && |s.queue| < max
    ensures Inv(Append(s, owner, command, generation, wait), max)
  {
    hide History, ActiveAt, Doomed;
    var t := Append(s, owner, command, generation, wait);
    var item := t.queue[|s.queue|];
    LogGrows(s.log, Accepted(item));
    HistoryGrows(s.log, Accepted(item));
    FreshIsNotDoomed(t.log, item);
    forall x | InHand(t, x) ensures Fit(t, x) {
      if x != item {
        assert InHand(s, x) && Fit(s, x) && !Cancels(Accepted(item), x);
      }
    }
    forall x | Held(t, x) ensures Known(t, x) {
      assert x != item ==> Held(s, x) && Known(s, x);
    }
    assert forall x | Held(s, x) :: Known(s, x);
    BeganTickets(s.log);
    AppendKeepsCompletions(s, t, item);
    AppendKeepsOrder(s, t, item);
  }

  lemma FreshIsNotDoomed(log: Log, item: Item)
    requires |log| > 0 && log[|log| - 1].Accepted? && item.ticket == |log| - 1
    ensures !Doomed(log, item, |log|)
  {
  }

  lemma AppendKeepsCompletions(s: State, t: State, item: Item)
    requires CompletionsInv(s) && t.queue == s.queue + [item] && t.current == s.current
    requires forall x | Held(s, x) && x.completion.Some? :: x.completion.value < |s.completions|
    requires t.completions == if item.completion.Some? then s.completions + [Pending] else s.completions
    requires item.completion.Some? ==> item.completion.value == |s.completions|
    ensures CompletionsInv(t)
  {
    forall c | 0 <= c < |t.completions| ensures t.completions[c] == Pending <==> Awaited(t, c) {
      if Awaited(t, c) {
        var x :| InHand(t, x) && x.completion == Some(c);
        assert x == item || InHand(s, x);
      }
      if c < |s.completions| && Awaited(s, c) {
        var x :| InHand(s, x) && x.completion == Some(c);
        assert InHand(t, x);
      }
      if c == |s.completions| {
        assert InHand(t, item);
      }
    }
    assert forall x | Held(t, x) :: x == item || Held(s, x);
  }

  lemma BeganTickets(log: Log)
    requires History(log)
    ensures forall i | 0 <= i < |log| && log[i].Began? :: log[i].item.ticket < i
  {
    forall i | 0 <= i < |log| && log[i].Began? ensures log[i].item.ticket < i {
      assert BeganWell(log, i);
    }
  }

  lemma AppendKeepsOrder(s: State, t: State, item: Item)
    requires InOrder(s) && t.queue == s.queue + [item] && t.current == s.current && t.log == s.log + [Accepted(item)]
    requires item.ticket == |s.log|
    requires forall x | Held(s, x) :: x.ticket < |s.log|
    requires forall i | 0 <= i < |s.log| && s.log[i].Began? :: s.log[i].item.ticket < |s.log|
    ensures InOrder(t)
  {
    assert forall x | x in t.queue :: x == item || x in s.queue;
    forall i, j | 0 <= i < j < |t.queue| ensures t.queue[i].ticket < t.queue[j].ticket {
      assert t.queue[i] == s.queue[i] && Held(s, s.queue[i]);
    }
  }

  lemma PopKeeps(s: State, authorized: bool, max: nat)
    requires Inv(s, max) && s.queue != [] && s.current.None?
    ensures Inv(Pop(s, authorized), max)
  {
    hide History, ActiveAt, Doomed, Genuine, CompletionsInv;
    var item := s.queue[0];
    assert InHand(s, item) && Fit(s, item) && Known(s, item);
    if !authorized {
      DroppedKeeps(s, max);
      PurgeKeeps(Dropped(s), OfOwner(item.owner), true, max);
      CancelDoomedIs(Dropped(s).completions, s.queue[1..], OfOwner(item.owner));
      CancelDoomedIs(s.completions, s.queue[1..], OfOwner(item.owner));
      assert Pop(s, authorized).completions == Deactivate(Dropped(s), item.owner, true).completions;
      Aside(Purge(Dropped(s), OfOwner(item.owner), true), Deactivate(Dropped(s), item.owner, true), max);
      assert Pop(s, authorized) == Deactivate(Dropped(s), item.owner, true);
    } else {
      BeginKeeps(s, max);
    }
  }

  /** The head of the queue thrown away unstarted. */
  function Dropped(s: State): State
    requires s.queue != []
  {
    s.(queue := s.queue[1..], completions := Settle(s.completions, s.queue[0].completion, Cancelled))
  }

  lemma DroppedKeeps(s: State, max: nat)
    requires Inv(s, max) && s.queue != [] && s.current.None?
    ensures Inv(Dropped(s), max)
  {
    hide History, ActiveAt, Doomed, Genuine, CompletionsInv;
    var t, item := Dropped(s), s.queue[0];
    TailOf(s.queue);
    forall x | Held(t, x) ensures Known(t, x) && Fit(t, x) {
      assert Held(s, x) && InHand(s, x);
    }
    assert forall x | InHand(s, x) :: Held(s, x) && Known(s, x);
    SettlingKeeps(s, t, item, Cancelled);
  }

  lemma TailOf(q: seq<Item>)
    requires Ascending(q) && q != []
    ensures forall x :: x in q <==> x == q[0] || x in q[1..]
    ensures q[0] !in q[1..] && Ascending(q[1..])
  {
    HeadIsFirst(q);
    assert q == [q[0]] + q[1..];
    assert forall x | x in q[1..] :: x != q[0];
  }

  /** Settling the completion of an item that leaves, while everything else stays in hand. */
  lemma SettlingKeeps(s: State, t: State, item: Item, o: Outcome)
    requires CompletionsInv(s) && o != Pending && Held(s, item) && !Held(t, item)
    requires t.completions == Settle(s.completions, item.completion, o)
    requires forall x | Held(t, x) :: Held(s, x)
    requires forall x | x != item :: InHand(s, x) <==> InHand(t, x)
    requires forall x | InHand(s, x) && x.completion.Some? :: x.completion.value < |s.completions|
    ensures CompletionsInv(t)
  {
    forall c: nat | c < |t.completions| ensures t.completions[c] == Pending <==> Awaited(t, c) {
      if item.completion == Some(c) {
        assert t.completions[c] != Pending;
        forall x | InHand(t, x) ensures x.completion != Some(c) {
          assert Held(s, x) && Held(s, item);
        }
      } else {
        AwaitedOtherwise(s, t, item, c);
      }
    }
  }

  lemma AwaitedOtherwise(s: State, t: State, item: Item, c: nat)
    requires forall x | x != item :: InHand(s, x) <==> InHand(t, x)
    requires !Held(t, item) && item.completion != Some(c)
    ensures Awaited(s, c) <==> Awaited(t, c)
  {
    if Awaited(s, c) {
      var x :| InHand(s, x) && x.completion == Some(c);
      assert InHand(t, x);
    }
  }

  lemma HeadIsFirst(q: seq<Item>)
    requires Ascending(q) && q != []
    ensures Ascending(q[1..])
    ensures forall x | x in q[1..] :: q[0].ticket < x.ticket
  {
    forall x | x in q[1..] ensures q[0].ticket < x.ticket {
      var i :| 0 <= i < |q| - 1 && q[1..][i] == x;
      assert q[i + 1] == x;
    }
  }

  lemma BeginKeeps(s: State, max: nat)
    requires Inv(s, max) && s.queue != [] && s.current.None?
    ensures Inv(Pop(s, true), max)
  {
    hide History, ActiveAt, Doomed, Genuine, CompletionsInv, InOrder;
    BeganTicketsBefore(s);
    var t, item := Pop(s, true), s.queue[0];
    assert InHand(s, item) && Fit(s, item) && Known(s, item);
    LogGrows(s.log, Began(item));
    HistoryGrows(s.log, Began(item));
    assert s.queue == [item] + t.queue;
    forall x | InHand(t, x) ensures Fit(t, x) {
      assert InHand(s, x) && Fit(s, x) && !Cancels(Began(item), x);
    }
    forall x | Held(t, x) ensures Known(t, x) {
      assert Held(s, x) && Known(s, x);
    }
    SameHands(s, t);
    BeginKeepsOrder(s);
  }

  lemma BeganTicketsBefore(s: State)
    requires InOrder(s) && s.queue != []
    ensures forall i | 0 <= i < |s.log| && s.log[i].Began? :: s.log[i].item.ticket < s.queue[0].ticket
  {
  }

  lemma BeginKeepsOrder(s: State)
    requires InOrder(s) && s.queue != [] && s.current.None? && s.queue[0].owner in s.owners && !s.queue[0].cancelled
    ensures InOrder(Pop(s, true))
  {
    var t := Pop(s, true);
    HeadIsFirst(s.queue);
    assert forall x | x in t.queue :: x in s.queue;
    assert forall i | 0 <= i < |s.log| :: t.log[i] == s.log[i];
  }

  function Noted(s: State, e: Event): State { s.(log := s.log + [e]) }

  lemma PutDownKeeps(s: State, e: Ending, max: nat)
    requires Inv(s, max) && s.current.Some?
    ensures Inv(Noted(s, PutDown(s.current.value, e)), max)
  {
    hide History, ActiveAt, Doomed, Genuine, CompletionsInv;
    var put := PutDown(s.current.value, e);
    var t := Noted(s, put);
    LogGrows(s.log, put);
    HistoryGrows(s.log, put);
    SameHands(s, t);
    forall x | InHand(t, x) ensures Fit(t, x) {
      assert InHand(s, x) && Fit(s, x) && !Cancels(put, x);
    }
    forall x | Held(t, x) ensures Known(t, x) {
      assert Held(s, x) && Known(s, x);
    }
  }

  lemma FinishKeeps(s: State, e: Ending, max: nat)
    requires Inv(s, max) && s.current.Some?
    ensures Inv(Finish(s, e), max)
  {
    PutDownKeeps(s, e, max);
    AnsweredKeeps(Noted(s, PutDown(s.current.value, e)), s, e, max);
  }

  lemma AnsweredKeeps(s: State, was: State, e: Ending, max: nat)
    requires was.current.Some? && s == Noted(was, PutDown(was.current.value, e)) && Inv(s, max)
    ensures Inv(Finish(was, e), max)
  {
    hide History, ActiveAt, Doomed, Genuine, CompletionsInv;
    if e == Revoked {
      PurgeKeeps(s, OfOwner(s.current.value.owner), true, max);
      Aside(Purge(s, OfOwner(s.current.value.owner), true), Deactivate(s, s.current.value.owner, true), max);
      DoneKeeps(Deactivate(s, s.current.value.owner, true), Cancelled, max);
    } else {
      var o := match e case Succeeded => Done case Broke => Failed case _ => Cancelled;
      DoneKeeps(s, o, max);
      Aside(s.(completions := Settle(s.completions, s.current.value.completion, o), current := None), Finish(was, e), max);
    }
  }

  /** Settling the running item's completion and putting the item down. */
  lemma DoneKeeps(s: State, o: Outcome, max: nat)
    requires Inv(s, max) && s.current.Some? && o != Pending
    ensures Inv(s.(completions := Settle(s.completions, s.current.value.completion, o), current := None), max)
  {
    hide History, ActiveAt, Doomed, Genuine;
    var item := s.current.value;
    assert Held(s, item) && Known(s, item);
    var t := s.(completions := Settle(s.completions, item.completion, o), current := None);
    forall x | Held(t, x) ensures Known(t, x) && Fit(t, x) {
      assert Held(s, x) && InHand(s, x);
    }
    assert forall x | x in s.queue :: x != item;
    SettlingKeeps(s, t, item, o);
  }

  lemma {:induction false} NothingKept(q: seq<Item>)
    ensures Kept(q, Everything) == []
  {
    if q != [] {
      NothingKept(q[1..]);
    }
  }

  lemma CloseKeeps(s: State, max: nat)
    requires Inv(s, max)
    ensures Inv(CloseBegin(s), max)
  {
    hide History, ActiveAt, Doomed, Genuine, CompletionsInv;
    if !s.stopping {
      PurgeKeeps(s, Everything, false, max);
      NothingKept(s.queue);
      var p := Purge(s, Everything, false);
      SameHands(p, CloseBegin(s));
    }
  }

  // ---------------------------------------------------------------- runs

  /** What other code may do to the lane, and what the worker does between two awaits. The answers of
      the authorization check and of the television are free. */
  datatype Call =
    | DoActivate(owner: Owner)
    | DoSubmit(owner: Owner, command: Command, authorized: bool)
    | DoSubmitAndWait(owner: Owner, command: Command, generation: nat, authorized: bool)
    | DoCancelOwner(owner: Owner, byWorker: bool)
    | DoCancelGeneration(owner: Owner, generation: nat, byWorker: bool)
    | DoPop(authorized: bool)
    | DoFinish(ending: Ending)
    | DoSleep
    | DoDie
    | DoClose
    | DoCloseEnd

  predicate Alive(w: Worker) {
    w == Running || w == Interrupted
  }

  predicate Enabled(s: State, call: Call) {
    match call
    case DoPop(_) => Alive(s.worker) && s.queue != [] && s.current.None?
    case DoFinish(_) => s.current.Some?
    case DoSleep => Alive(s.worker) && s.queue == [] && s.current.None?
    case DoDie => Alive(s.worker) && s.current.None?
    case DoCloseEnd => s.stopping && s.current.None?
    case _ => true
  }

  function Apply(s: State, max: nat, call: Call): State
    requires Enabled(s, call)
  {
    match call
    case DoActivate(owner) => Activate(s, owner)
    case DoSubmit(owner, command, authorized) => Enqueue(s, max, owner, command, None, false, authorized).0
    case DoSubmitAndWait(owner, command, generation, authorized) =>
      EnqueueAndWait(s, max, owner, command, generation, authorized).0
    case DoCancelOwner(owner, byWorker) => Deactivate(s, owner, byWorker)
    case DoCancelGeneration(owner, generation, byWorker) => CancelGeneration(s, owner, generation, byWorker)
    case DoPop(authorized) => Pop(s, authorized)
    case DoFinish(e) => Finish(s, e)
    case DoSleep => s.(wake := false)
    case DoDie => s.(worker := Dead)
    case DoClose => CloseBegin(s)
    case DoCloseEnd => CloseEnd(s)
  }

  /** Settled completions keep their outcome. */
  predicate SettledStay(cs: seq<Outcome>, ds: seq<Outcome>) {
    |cs| <= |ds| && forall c | 0 <= c < |cs| && cs[c] != Pending :: ds[c] == cs[c]
  }

  lemma EnqueueKeeps(s: State, max: nat, owner: Owner, command: Command, generation: Option<nat>, wait: bool, authorized: bool)
    requires Inv(s, max)
    ensures Inv(Enqueue(s, max, owner, command, generation, wait, authorized).0, max)
  {
    hide History, ActiveAt, Doomed, Genuine, CompletionsInv, InOrder;
    if s.stopping || owner !in s.owners {
    } else if !authorized {
      PurgeKeeps(s, OfOwner(owner), false, max);
      Aside(Purge(s, OfOwner(owner), false), Deactivate(s, owner, false), max);
    } else if Coalesces(s, owner, command, wait) {
      ReplaceKeeps(s, command, max);
    } else if |s.queue| < max {
      AppendKeeps(s, owner, command, generation, wait, max);
    }
  }

  /** A completion nobody waits for any more. */
  lemma CancelledKeeps(s: State, max: nat)
    requires Inv(s, max)
    ensures Inv(s.(completions := s.completions + [Cancelled]), max)
  {
    hide History, ActiveAt, Doomed, Genuine;
    var t := s.(completions := s.completions + [Cancelled]);
    forall x | Held(t, x) ensures Known(t, x) {
      assert Held(s, x) && Known(s, x);
    }
    forall x | InHand(t, x) ensures Fit(t, x) {
      assert InHand(s, x) && Fit(s, x);
    }
    SameAwaited(s, t);
    forall c: nat | Awaited(s, c) ensures c < |s.completions| {
      var x :| InHand(s, x) && x.completion == Some(c);
      assert Held(s, x) && Known(s, x);
    }
    assert forall x | Held(t, x) :: Held(s, x);
  }

  lemma ApplyKeeps(s: State, max: nat, call: Call)
    requires Inv(s, max) && Enabled(s, call)
    ensures Inv(Apply(s, max, call), max)
  {
    hide History, ActiveAt, Doomed, Genuine, CompletionsInv, InOrder, Enqueue, Purge, Pop, Finish;
    match call
    case DoActivate(owner) => ActivateKeeps(s, owner, max);
    case DoSubmit(owner, command, authorized) => EnqueueKeeps(s, max, owner, command, None, false, authorized);
    case DoSubmitAndWait(owner, command, generation, authorized) =>
      EnqueueKeeps(s, max, owner, command, Some(generation), true, authorized);
      CancelledKeeps(Enqueue(s, max, owner, command, Some(generation), true, authorized).0, max);
    case DoCancelOwner(owner, byWorker) =>
      PurgeKeeps(s, OfOwner(owner), byWorker, max);
      Aside(Purge(s, OfOwner(owner), byWorker), Deactivate(s, owner, byWorker), max);
    case DoCancelGeneration(owner, g, byWorker) =>
      PurgeKeeps(s, OfGeneration(owner, g), byWorker, max);
      PurgeLeavesWake(s, OfGeneration(owner, g), byWorker);
      Aside(Purge(s, OfGeneration(owner, g), byWorker), CancelGeneration(s, owner, g, byWorker), max);
    case DoPop(authorized) => PopKeeps(s, authorized, max);
    case DoFinish(e) => FinishKeeps(s, e, max);
    case DoSleep => SleepKeeps(s, max);
    case DoDie => Aside(s, s.(worker := Dead), max);
    case DoClose => CloseKeeps(s, max);
    case DoCloseEnd => Aside(s, CloseEnd(s), max);
  }

  lemma PurgeLeavesWake(s: State, d: Doom, byWorker: bool)
    ensures Purge(s, d, byWorker).wake == s.wake
  {
  }

  /** The flag is lowered only over an empty queue, so no queued item is ever left asleep. */
  lemma SleepKeeps(s: State, max: nat)
    requires Inv(s, max) && s.queue == []
    ensures Inv(s.(wake := false), max)
  {
    hide History, ActiveAt, Doomed, Genuine;
    SameHands(s, s.(wake := false));
  }

  lemma ApplySettlesOnce(s: State, max: nat, call: Call)
    requires Enabled(s, call)
    ensures SettledStay(s.completions, Apply(s, max, call).completions)
  {
    hide Purge, Settle;
    match call
    case DoPop(authorized) =>
      SettleOnce(s.completions, s.queue[0].completion, Cancelled);
      var u := s.(queue := s.queue[1..]);
      PurgeSettlesOnce(u, OfOwner(s.queue[0].owner), true);
      SettleOnce(Deactivate(u, s.queue[0].owner, true).completions, s.queue[0].completion, Cancelled);
    case DoFinish(e) =>
      var c := s.current.value.completion;
      SettleOnce(s.completions, c, Done);
      SettleOnce(s.completions, c, Failed);
      SettleOnce(s.completions, c, Cancelled);
      PurgeSettlesOnce(Noted(s, PutDown(s.current.value, e)), OfOwner(s.current.value.owner), true);
    case DoSubmit(owner, _, _) => PurgeSettlesOnce(s, OfOwner(owner), false);
    case DoSubmitAndWait(owner, _, _, _) => PurgeSettlesOnce(s, OfOwner(owner), false);
    case DoCancelOwner(owner, byWorker) => PurgeSettlesOnce(s, OfOwner(owner), byWorker);
    case DoCancelGeneration(owner, g, byWorker) => PurgeSettlesOnce(s, OfGeneration(owner, g), byWorker);
    case DoClose => PurgeSettlesOnce(s, Everything, false);
    case _ =>
  }

  lemma SettleOnce(cs: seq<Outcome>, c: Option<nat>, o: Outcome)
    ensures SettledStay(cs, Settle(cs, c, o))
  {
  }

  lemma PurgeSettlesOnce(s: State, d: Doom, byWorker: bool)
    ensures SettledStay(s.completions, Purge(s, d, byWorker).completions)
  {
    CancelDoomedIs(s.completions, s.queue, d);
  }

  // ---------------------------------------------------------------- what is taken

  /** A command is taken exactly if the lane is open to an owner that is active and authorized now, and
      there is room for it or it replaces the text last queued; it then stands last, for that owner. An
      unauthorized owner is ended by asking. */
  lemma TakenIff(s: State, max: nat, owner: Owner, command: Command, generation: Option<nat>, wait: bool, authorized: bool)
    requires Inv(s, max)
    ensures var (t, taken) := Enqueue(s, max, owner, command, generation, wait, authorized);
            var n := |s.queue| - 1;
            var retext := && command.action == SendText && !wait
                          && n >= 0 && s.queue[n].command.action == SendText && s.queue[n].owner == owner && s.queue[n].completion.None?;
            && (taken <==> owner in s.owners && authorized && (retext || |s.queue| < max))
            && (!authorized ==> owner !in t.owners && forall x | x in t.queue :: x.owner != owner)
            && (!taken && authorized ==> t == s)
            && (taken ==> t.queue != [] && t.current == s.current && t.owners == s.owners && t.wake
                          && var last := t.queue[|t.queue| - 1]; last.command == command && last.owner == owner && !last.cancelled)
            && (taken && retext ==> t.queue[..n] == s.queue[..n] && |t.queue| == n + 1 && t.completions == s.completions
                                    && t.queue[n] == s.queue[n].(command := command)
                                    && t.log == s.log + [Replaced(s.queue[n].ticket, owner, command)])
            && (taken && !retext ==>
                  var item := Item(|s.log|, owner, command, generation, if wait then Some(|s.completions|) else None, false);
                  && t.queue == s.queue + [item] && t.log == s.log + [Accepted(item)]
                  && t.completions == s.completions + if wait then [Pending] else [])
  {
    hide History, ActiveAt, Doomed, Genuine, CompletionsInv, InOrder, Held;
    KeptIs(s.queue, OfOwner(owner));
    assert s.completions + [] == s.completions;
    if owner in s.owners && authorized && s.queue != [] {
      assert InHand(s, s.queue[|s.queue| - 1]) && Fit(s, s.queue[|s.queue| - 1]);
    } else if owner !in s.owners {
      assert forall x | x in s.queue :: InHand(s, x) && Fit(s, x);
    }
  }

  /** What is queued always belongs to an active owner: the first in the queue begins exactly if the
      second check still says yes, and otherwise everything of its owner goes, and nothing else. */
  lemma BeginsIff(s: State, max: nat, authorized: bool)
    requires Inv(s, max) && s.queue != [] && s.current.None?
    ensures var t, item := Pop(s, authorized), s.queue[0];
            && (authorized ==> t == s.(queue := s.queue[1..], current := Some(item), log := s.log + [Began(item)]))
            && (!authorized ==> t.current.None? && t.log == s.log + [Ended(item.owner)] && t.owners == s.owners - {item.owner}
                                && forall x :: x in t.queue <==> x in s.queue && x.owner != item.owner)
  {
    hide History, ActiveAt, Doomed, Genuine, CompletionsInv, InOrder;
    var item := s.queue[0];
    assert InHand(s, item) && Fit(s, item);
    KeptIs(s.queue[1..], OfOwner(item.owner));
    assert s.queue == [item] + s.queue[1..];
  }

  /** What throws an item away is what the history calls its cancellation. */
  lemma HitsIsCancels(d: Doom, x: Item)
    ensures Hits(d, x) <==> Cancels(Notice(d), x)
  {
  }

  /** The one worker outlives everything but shutdown and a cancellation meant for itself: cutting a
      cancelled command short leaves it alive for whoever comes next. */
  lemma WorkerSurvives(s: State, max: nat, call: Call)
    requires Enabled(s, call) && Alive(s.worker) && call != DoDie && call != DoCloseEnd
    requires call == DoFinish(CutShort) ==> !s.stopping && (s.current.value.cancelled || s.current.value.owner !in s.owners)
    ensures Alive(Apply(s, max, call).worker)
  {
  }

  /** A cancelled command is not left running: its worker is interrupted, unless it is the worker that
      cancels. */
  lemma HitIsInterrupted(s: State, d: Doom)
    requires s.current.Some? && Hits(d, s.current.value) && s.worker == Running
    ensures Purge(s, d, false).worker == Interrupted && Purge(s, d, true).worker == Running
    ensures forall byWorker :: Purge(s, d, byWorker).current.Some? && Purge(s, d, byWorker).current.value.cancelled
  {
  }

  // ---------------------------------------------------------------- coalescing

  predicate IsText(c: Command) {
    c.action == SendText
  }

  function LastText(cs: seq<Command>): Option<Command> {
    if cs == [] then None
    else if IsText(cs[|cs| - 1]) then Some(cs[|cs| - 1])
    else LastText(cs[..|cs| - 1])
  }

  /** What the television makes of a sequence of commands: each one that is not a text replacement,
      with the text in force when it arrives. */
  function Landmarks(cs: seq<Command>): seq<(Option<Command>, Command)> {
    if cs == [] then []
    else if IsText(cs[|cs| - 1]) then Landmarks(cs[..|cs| - 1])
    else Landmarks(cs[..|cs| - 1]) + [(LastText(cs[..|cs| - 1]), cs[|cs| - 1])]
  }

  predicate SameEffect(a: seq<Command>, b: seq<Command>) {
    Landmarks(a) == Landmarks(b) && LastText(a) == LastText(b)
  }

  function Submitted(log: Log): seq<Command> {
    if log == [] then []
    else Submitted(log[..|log| - 1]) +
         match log[|log| - 1]
         case Accepted(item) => [item.command]
         case Replaced(_, _, command) => [command]
         case _ => []
  }

  function Begun(log: Log): seq<Command> {
    if log == [] then []
    else Begun(log[..|log| - 1]) + (if log[|log| - 1].Began? then [log[|log| - 1].item.command] else [])
  }

  function Commands(q: seq<Item>): seq<Command> {
    seq(|q|, i requires 0 <= i < |q| => q[i].command)
  }

  /** Nothing was thrown away. */
  ghost predicate Quiet(log: Log) {
    forall k | 0 <= k < |log| :: !log[k].Ended? && !log[k].Stopped? && !log[k].Closed?
  }

  /** What was begun, followed by what is still queued, has the effect of everything submitted. */
  ghost predicate Faithful(s: State) {
    Quiet(s.log) ==> SameEffect(Begun(s.log) + Commands(s.queue), Submitted(s.log))
  }

  lemma EffectGrows(a: seq<Command>, b: seq<Command>, c: Command)
    requires SameEffect(a, b)
    ensures SameEffect(a + [c], b + [c])
  {
    assert (a + [c])[..|a|] == a && (b + [c])[..|b|] == b;
  }

  /** A text replacement hides the one before it. */
  lemma TextHidesText(a: seq<Command>, t: Command, u: Command)
    requires IsText(t) && IsText(u)
    ensures SameEffect(a + [u], a + [t] + [u])
  {
    assert (a + [u])[..|a|] == a && (a + [t])[..|a|] == a && (a + [t] + [u])[..|a| + 1] == a + [t];
  }

  lemma LogSteps(log: Log, e: Event)
    ensures Begun(log + [e]) == if e.Began? then Begun(log) + [e.item.command] else Begun(log)
    ensures e.Accepted? ==> Submitted(log + [e]) == Submitted(log) + [e.item.command]
    ensures e.Replaced? ==> Submitted(log + [e]) == Submitted(log) + [e.command]
    ensures !e.Accepted? && !e.Replaced? ==> Submitted(log + [e]) == Submitted(log)
    ensures Quiet(log + [e]) ==> Quiet(log) && !e.Ended? && !e.Stopped? && !e.Closed?
  {
    assert (log + [e])[..|log|] == log;
    if Quiet(log + [e]) {
      assert forall k | 0 <= k < |log| :: log[k] == (log + [e])[k];
      assert e == (log + [e])[|log|];
    }
  }

  lemma ReplaceIsFaithful(s: State, command: Command)
    requires Faithful(s) && s.queue != [] && IsText(command) && IsText(s.queue[|s.queue| - 1].command)
    ensures Faithful(Replace(s, command))
  {
    hide LastText, Landmarks, Commands, Begun, Submitted;
    var n := |s.queue| - 1;
    var was := s.queue[n].command;
    LogSteps(s.log, Replaced(s.queue[n].ticket, s.queue[n].owner, command));
    var before := Begun(s.log) + Commands(s.queue[..n]);
    LastCommand(Begun(s.log), s.queue);
    LastCommand(Begun(s.log), Replace(s, command).queue);
    assert Replace(s, command).queue[..n] == s.queue[..n];
    if Quiet(Replace(s, command).log) {
      EffectGrows(before + [was], Submitted(s.log), command);
      TextHidesText(before, was, command);
    }
  }

  lemma LastCommand(begun: seq<Command>, q: seq<Item>)
    requires q != []
    ensures begun + Commands(q) == begun + Commands(q[..|q| - 1]) + [q[|q| - 1].command]
  {
  }

  lemma AppendIsFaithful(s: State, owner: Owner, command: Command, generation: Option<nat>, wait: bool)
    requires Faithful(s)
    ensures Faithful(Append(s, owner, command, generation, wait))
  {
    hide LastText, Landmarks;
    var t := Append(s, owner, command, generation, wait);
    LogSteps(s.log, Accepted(t.queue[|s.queue|]));
    assert Begun(s.log) + Commands(t.queue) == Begun(s.log) + Commands(s.queue) + [command];
    if Quiet(t.log) {
      EffectGrows(Begun(s.log) + Commands(s.queue), Submitted(s.log), command);
    }
  }

  lemma PopIsFaithful(s: State, max: nat, authorized: bool)
    requires Inv(s, max) && Faithful(s) && s.queue != []
    ensures Faithful(Pop(s, authorized))
  {
    hide LastText, Landmarks, History, ActiveAt, Doomed, Genuine, CompletionsInv;
    var t, item := Pop(s, authorized), s.queue[0];
    assert InHand(s, item) && Fit(s, item);
    LogSteps(s.log, if authorized then Began(item) else Ended(item.owner));
    if authorized {
      assert Begun(t.log) + Commands(t.queue) == Begun(s.log) + Commands(s.queue);
    }
  }

  lemma ApplyIsFaithful(s: State, max: nat, call: Call)
    requires Inv(s, max) && Enabled(s, call) && Faithful(s)
    ensures Faithful(Apply(s, max, call))
  {
    hide LastText, Landmarks, Begun, Submitted, History, Doomed, Inv;
    var t := Apply(s, max, call);
    match call
    case DoPop(authorized) => PopIsFaithful(s, max, authorized);
    case DoSubmit(owner, command, authorized) => EnqueueIsFaithful(s, max, owner, command, None, false, authorized);
    case DoSubmitAndWait(owner, command, generation, authorized) =>
      EnqueueIsFaithful(s, max, owner, command, Some(generation), true, authorized);
    case DoActivate(owner) => LogSteps(s.log, Activated(owner));
    case DoCancelOwner(owner, byWorker) => LogSteps(s.log, Ended(owner));
    case DoCancelGeneration(owner, g, byWorker) => LogSteps(s.log, Stopped(owner, g));
    case DoFinish(e) => FinishIsFaithful(s, e);
    case DoClose => LogSteps(s.log, Closed);
    case _ =>
  }

  lemma EnqueueIsFaithful(s: State, max: nat, owner: Owner, command: Command, generation: Option<nat>, wait: bool, authorized: bool)
    requires Faithful(s)
    ensures Faithful(Enqueue(s, max, owner, command, generation, wait, authorized).0)
  {
    hide Faithful, Append, Replace, LastText, Landmarks;
    if s.stopping || owner !in s.owners {
    } else if !authorized {
      EndedIsFaithful(s, owner);
    } else if Coalesces(s, owner, command, wait) {
      ReplaceIsFaithful(s, command);
    } else if |s.queue| < max {
      AppendIsFaithful(s, owner, command, generation, wait);
    }
  }

  lemma FinishIsFaithful(s: State, e: Ending)
    requires Faithful(s) && s.current.Some?
    ensures Faithful(Finish(s, e))
  {
    hide LastText, Landmarks, Begun, Submitted;
    var t, put := Finish(s, e), s.log + [PutDown(s.current.value, e)];
    LogSteps(s.log, PutDown(s.current.value, e));
    LogSteps(put, Ended(s.current.value.owner));
    assert t.log == if e == Revoked then put + [Ended(s.current.value.owner)] else put;
    assert e != Revoked ==> t.queue == s.queue;
  }

  lemma EndedIsFaithful(s: State, owner: Owner)
    ensures Faithful(Deactivate(s, owner, false))
  {
    LogSteps(s.log, Ended(owner));
  }

  // ---------------------------------------------------------------- every run

  lemma ApplyStep(s: State, max: nat, call: Call)
    requires Inv(s, max) && Faithful(s) && Enabled(s, call)
    ensures Inv(Apply(s, max, call), max) && Faithful(Apply(s, max, call))
    ensures SettledStay(s.completions, Apply(s, max, call).completions)
  {
    hide *;
    ApplyKeeps(s, max, call);
    ApplyIsFaithful(s, max, call);
    ApplySettlesOnce(s, max, call);
  }

  predicate AllEnabled(s: State, max: nat, calls: seq<Call>)
    decreases |calls|
  {
    calls == [] || (Enabled(s, calls[0]) && AllEnabled(Apply(s, max, calls[0]), max, calls[1..]))
  }

  function After(s: State, max: nat, calls: seq<Call>): State
    requires AllEnabled(s, max, calls)
    decreases |calls|
  {
    if calls == [] then s else After(Apply(s, max, calls[0]), max, calls[1..])
  }

  const New := State([], {}, None, [], Absent, false, false, [])

  lemma NewIsFit(max: nat)
    ensures Inv(New, max) && Faithful(New)
  {
  }

  lemma {:induction false} RunKeeps(s: State, max: nat, calls: seq<Call>)
    requires Inv(s, max) && Faithful(s) && AllEnabled(s, max, calls)
    ensures var t := After(s, max, calls);
            Inv(t, max) && Faithful(t) && SettledStay(s.completions, t.completions)
    decreases |calls|
  {
    hide Inv, Faithful, Apply, Enabled;
    if calls != [] {
      ApplyStep(s, max, calls[0]);
      RunKeeps(Apply(s, max, calls[0]), max, calls[1..]);
    }
  }

  /** In any run, what was cancelled, or belonged to an owner since ended, never begins. */
  lemma NothingBeginsLate(max: nat, calls: seq<Call>, ticket: nat, k: nat, j: nat)
    requires AllEnabled(New, max, calls)
    ensures var log := After(New, max, calls).log;
            ticket < k < j < |log| && log[ticket].Accepted? && log[j].Began? && Cancels(log[k], log[ticket].item)
            ==> log[j].item.ticket != ticket
  {
    NewIsFit(max);
    RunKeeps(New, max, calls);
    var log := After(New, max, calls).log;
    if ticket < k < j < |log| && log[ticket].Accepted? && log[j].Began? && Cancels(log[k], log[ticket].item) {
      assert BeganWell(log, j);
      if log[j].item.ticket == ticket {
        assert Cancels(log[k], log[j].item);
      }
    }
  }

  /** In any run without cancellations, once drained the television has seen what it would have seen
      without coalescing: the same other commands in the same order, each with the same text in force. */
  lemma DrainedRunHasSameEffect(max: nat, calls: seq<Call>)
    requires AllEnabled(New, max, calls)
    ensures var s := After(New, max, calls);
            s.queue == [] && Quiet(s.log) ==> SameEffect(Begun(s.log), Submitted(s.log))
  {
    NewIsFit(max);
    RunKeeps(New, max, calls);
    var s := After(New, max, calls);
    if s.queue == [] {
      assert Begun(s.log) + Commands(s.queue) == Begun(s.log);
    }
  }
}
