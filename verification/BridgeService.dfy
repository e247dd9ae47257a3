/**
 One connection's share of the remote-control pipeline: the relay turns touches into commands, holds
 drive the repeater, and everything goes to the television through the shared dispatch lane.
 */
module BridgeService {
  import opened Base
  import opened Remote
  import opened DispatchLane
  import opened DispatchAnswers
  import opened CommandDispatch
  import opened Repeater
  import Gestures
  import Relay

  // ---------------------------------------------------------------- what the lane holds for this connection

  /** Delayed work of ours that is still in hand belongs to the live hold of the current session. */
  ghost predicate Tagged(s: State, mine: set<Owner>, owner: Option<Owner>, live: Option<Task>) {
    forall x | InHand(s, x) && x.owner in mine && x.generation.Some? ::
      live.Some? && Belongs(x, owner, live.value)
  }

  predicate Belongs(x: Item, owner: Option<Owner>, t: Task) {
    Some(x.owner) == owner && x.generation == Some(t.generation) && x.command == Click(t.key, true)
  }

  /** The event hands in, or begins, delayed work of our generation `g`. */
  predicate Concerns(e: Event, mine: set<Owner>, g: nat) {
    (e.Accepted? || e.Began?) && e.item.owner in mine && e.item.generation == Some(g)
  }

  /** Once a generation has ended, none of its work is handed in or begun any more. */
  ghost predicate NoLateWork(log: Log, mine: set<Owner>, endedAt: map<nat, nat>) {
    forall j, g | 0 <= j < |log| && g in endedAt && Concerns(log[j], mine, g) :: j < endedAt[g]
  }

  predicate Unseen(log: Log, owner: Owner) {
    forall j | 0 <= j < |log| && (log[j].Accepted? || log[j].Began?) :: log[j].item.owner != owner
  }

  lemma EnqueueTags(s: State, max: nat, owner: Owner, command: Command, generation: Option<nat>, wait: bool, authorized: bool,
                    mine: set<Owner>, current: Option<Owner>, live: Option<Task>)
    requires Tagged(s, mine, current, live)
    requires generation.Some? && owner in mine ==>
               live.Some? && Some(owner) == current && generation == Some(live.value.generation) && command == Click(live.value.key, true)
    ensures Tagged(Enqueue(s, max, owner, command, generation, wait, authorized).0, mine, current, live)
  {
    hide Purge;
    PurgeHands(s, OfOwner(owner), false);
    var t := Enqueue(s, max, owner, command, generation, wait, authorized).0;
    if s.stopping || owner !in s.owners {
    } else if !authorized {
      assert forall x | InHand(t, x) :: InHand(Purge(s, OfOwner(owner), false), x);
    } else if Coalesces(s, owner, command, wait) {
      ReplaceTags(s, command, mine, current, live);
    }
  }

  lemma ReplaceTags(s: State, command: Command, mine: set<Owner>, current: Option<Owner>, live: Option<Task>)
    requires Tagged(s, mine, current, live) && s.queue != [] && s.queue[|s.queue| - 1].command.action == SendText
    ensures Tagged(Replace(s, command), mine, current, live)
  {
    var t, n := Replace(s, command), |s.queue| - 1;
    forall x | InHand(t, x) && x.owner in mine && x.generation.Some? ensures InHand(s, x) {
      if x in t.queue {
        var i :| 0 <= i < |t.queue| && t.queue[i] == x;
        assert InHand(s, s.queue[i]);
      }
    }
  }

  lemma LogGrows(log: Log, e: Event, mine: set<Owner>, endedAt: map<nat, nat>)
    requires NoLateWork(log, mine, endedAt) && forall g | g in endedAt :: !Concerns(e, mine, g)
    ensures NoLateWork(log + [e], mine, endedAt)
  {
  }

  ghost predicate LaneSafe(s: State, mine: set<Owner>, owner: Option<Owner>, live: Option<Task>, endedAt: map<nat, nat>) {
    && Tagged(s, mine, owner, live)
    && NoLateWork(s.log, mine, endedAt)
    && (live.Some? ==> live.value.generation !in endedAt)
  }

  lemma PurgeSafe(s: State, d: Doom, byWorker: bool, mine: set<Owner>, owner: Option<Owner>, live: Option<Task>, endedAt: map<nat, nat>)
    requires LaneSafe(s, mine, owner, live, endedAt)
    ensures LaneSafe(Purge(s, d, byWorker), mine, owner, live, endedAt)
  {
    PurgeHands(s, d, byWorker);
    LogGrows(s.log, Notice(d), mine, endedAt);
  }

  /** Cancelling the live hold's generation takes all of our delayed work out of the lane, for good. */
  lemma EndSafe(s: State, byWorker: bool, mine: set<Owner>, owner: Owner, live: Task, endedAt: map<nat, nat>)
    requires LaneSafe(s, mine, Some(owner), Some(live), endedAt)
    ensures var t := CancelGeneration(s, owner, live.generation, byWorker);
            LaneSafe(t, mine, Some(owner), None, endedAt[live.generation := |t.log|])
  {
    var d := OfGeneration(owner, live.generation);
    PurgeHands(s, d, byWorker);
    LogGrows(s.log, Notice(d), mine, endedAt);
    var t := CancelGeneration(s, owner, live.generation, byWorker);
    assert forall x | InHand(t, x) :: InHand(Purge(s, d, byWorker), x);
  }

  lemma EnqueueSafe(s: State, max: nat, owner: Owner, command: Command, generation: Option<nat>, wait: bool, authorized: bool,
                    mine: set<Owner>, current: Option<Owner>, live: Option<Task>, endedAt: map<nat, nat>)
    requires LaneSafe(s, mine, current, live, endedAt)
    requires generation.Some? && owner in mine ==>
               live.Some? && Some(owner) == current && generation == Some(live.value.generation) && command == Click(live.value.key, true)
    ensures LaneSafe(Enqueue(s, max, owner, command, generation, wait, authorized).0, mine, current, live, endedAt)
  {
    hide Tagged, NoLateWork;
    EnqueueTags(s, max, owner, command, generation, wait, authorized, mine, current, live);
    var t := Enqueue(s, max, owner, command, generation, wait, authorized).0;
    if t.log != s.log {
      LogGrows(s.log, t.log[|s.log|], mine, endedAt);
    }
  }

  lemma PopSafe(s: State, max: nat, authorized: bool, mine: set<Owner>, owner: Option<Owner>, live: Option<Task>, endedAt: map<nat, nat>)
    requires Inv(s, max) && LaneSafe(s, mine, owner, live, endedAt) && s.queue != [] && s.current.None?
    ensures LaneSafe(Pop(s, authorized), mine, owner, live, endedAt)
  {
    hide History, CompletionsInv, InOrder, Doomed, ActiveAt, NoLateWork;
    var item, t := s.queue[0], Pop(s, authorized);
    assert InHand(s, item) && Fit(s, item);
    var u := s.(queue := s.queue[1..]);
    assert forall x | InHand(u, x) :: InHand(s, x);
    if authorized {
      LogGrows(s.log, Began(item), mine, endedAt);
      assert forall x | InHand(t, x) :: InHand(s, x);
    } else {
      PurgeSafe(u, OfOwner(item.owner), true, mine, owner, live, endedAt);
      assert forall x | InHand(t, x) :: InHand(Purge(u, OfOwner(item.owner), true), x);
    }
  }

  /** Whatever anyone does to the lane, our delayed work stays with our live hold. Only handing in
      delayed work under one of our owners is restricted: that is this connection's own doing. */
  lemma ApplySafe(s: State, max: nat, call: Call, mine: set<Owner>, owner: Option<Owner>, live: Option<Task>, endedAt: map<nat, nat>)
    requires Inv(s, max) && Enabled(s, call) && LaneSafe(s, mine, owner, live, endedAt)
    requires call.DoSubmitAndWait? && call.owner in mine ==>
               && live.Some? && Some(call.owner) == owner
               && call.generation == live.value.generation && call.command == Click(live.value.key, true)
    ensures LaneSafe(Apply(s, max, call), mine, owner, live, endedAt)
  {
    hide Inv, NoLateWork, Purge, Pop, Enqueue;
    var t := Apply(s, max, call);
    match call
    case DoPop(authorized) => PopSafe(s, max, authorized, mine, owner, live, endedAt);
    case DoSubmit(o, command, authorized) =>
      EnqueueSafe(s, max, o, command, None, false, authorized, mine, owner, live, endedAt);
    case DoSubmitAndWait(o, command, g, authorized) =>
      EnqueueSafe(s, max, o, command, Some(g), true, authorized, mine, owner, live, endedAt);
      var u := Enqueue(s, max, o, command, Some(g), true, authorized).0;
      assert forall x | InHand(t, x) :: InHand(u, x);
    case DoActivate(o) =>
      LogGrows(s.log, Activated(o), mine, endedAt);
      assert forall x | InHand(t, x) :: InHand(s, x);
    case DoCancelOwner(o, byWorker) =>
      PurgeSafe(s, OfOwner(o), byWorker, mine, owner, live, endedAt);
      assert forall x | InHand(t, x) :: InHand(Purge(s, OfOwner(o), byWorker), x);
    case DoCancelGeneration(o, g, byWorker) =>
      PurgeSafe(s, OfGeneration(o, g), byWorker, mine, owner, live, endedAt);
      assert forall x | InHand(t, x) :: InHand(Purge(s, OfGeneration(o, g), byWorker), x);
    case DoFinish(e) =>
      var o, put := s.current.value.owner, PutDown(s.current.value, e);
      LogGrows(s.log, put, mine, endedAt);
      var u := Noted(s, put);
      assert forall x | InHand(u, x) :: InHand(s, x);
      PurgeSafe(u, OfOwner(o), true, mine, owner, live, endedAt);
      assert forall x | InHand(t, x) :: InHand(if e == Revoked then Purge(u, OfOwner(o), true) else s, x);
    case DoClose =>
      PurgeSafe(s, Everything, false, mine, owner, live, endedAt);
      assert forall x | InHand(t, x) :: InHand(if s.stopping then s else Purge(s, Everything, false), x);
    case _ =>
      assert forall x | InHand(t, x) :: InHand(s, x);
  }

  lemma FreshOwnerSafe(s: State, max: nat, mine: set<Owner>, owner: Owner, endedAt: map<nat, nat>)
    requires Inv(s, max) && LaneSafe(s, mine, None, None, endedAt) && Unseen(s.log, owner)
    ensures LaneSafe(s, mine + {owner}, Some(owner), None, endedAt)
  {
    hide History, CompletionsInv, InOrder, Doomed, ActiveAt;
    forall x | InHand(s, x) ensures x.owner != owner {
      assert Held(s, x) && Known(s, x);
    }
    forall j, g | 0 <= j < |s.log| && g in endedAt && Concerns(s.log[j], mine + {owner}, g) ensures Concerns(s.log[j], mine, g) {
    }
  }

  /** A new hold may begin whenever none is live and its generation has never ended. */
  lemma NewHoldSafe(s: State, mine: set<Owner>, owner: Option<Owner>, task: Task, endedAt: map<nat, nat>)
    requires LaneSafe(s, mine, owner, None, endedAt) && task.generation !in endedAt
    ensures LaneSafe(s, mine, owner, Some(task), endedAt)
  {
  }

  lemma RefusedUnchanged(s: State, max: nat, owner: Owner, command: Command, generation: Option<nat>, wait: bool, authorized: bool)
    ensures var (t, taken) := Enqueue(s, max, owner, command, generation, wait, authorized);
            (!taken && authorized ==> t == s) && (taken ==> authorized && owner in s.owners && !s.stopping)
  {
  }

  /** Ends on record stay on record. */
  ghost predicate Extends(a: map<nat, nat>, b: map<nat, nat>) {
    forall g | g in a :: g in b && b[g] == a[g]
  }

  /** The click a hold sends at once: untagged, so stopping the hold leaves it queued. */
  predicate First(x: Item, key: string, owner: Option<Owner>) {
    x.command == Click(key, true) && x.generation.None? && Some(x.owner) == owner
  }

  lemma HeadIsTagged(s: State, mine: set<Owner>, owner: Option<Owner>, live: Option<Task>, endedAt: map<nat, nat>)
    requires s.queue != [] && LaneSafe(s, mine, owner, live, endedAt)
    ensures s.queue[0].owner in mine && s.queue[0].generation.Some? ==> live.Some? && Belongs(s.queue[0], owner, live.value)
  {
    assert InHand(s, s.queue[0]);
  }

  /** The lane after several plain commands handed in under one session. */
  function SubmittedAll(s: State, max: nat, owner: Option<Owner>, cs: seq<Command>): State {
    if cs == [] || owner.None? then s
    else Enqueue(SubmittedAll(s, max, owner, cs[..|cs| - 1]), max, owner.value, cs[|cs| - 1], None, false, true).0
  }

  /** Nothing of any other owner has left the queue. */
  predicate OthersStay(before: seq<Item>, after: seq<Item>, owner: Option<Owner>) {
    forall x | x in before && Some(x.owner) != owner :: x in after
  }

  predicate Plain(cs: seq<Command>) {
    forall c | c in cs :: c.phase.None?
  }

  /** One step of a run. */
  datatype Step =
    | TouchFrame(action: Gestures.TouchAction, cx: int, cy: int, at: real, authorized: nat -> bool)
    | OtherInput(command: Command, ok: bool)
    | TouchEnds
    | SessionStarts(owner: Owner)
    | SessionEnds
    | TimerFires(task: Task, clientAuthorized: bool, laneAuthorized: bool)
    | TimerEnds(task: Task)
    | OnLane(call: Call)

  class BridgeService {
    const lane: CommandDispatchLane
    const repeater: HoldRepeater
    const relay: Relay.CommandRelay
    var dispatchOwner: Option<Owner>
    var repeatOwners: map<nat, Owner>
    var tasksToDrain: set<Task>
    ghost var mine: set<Owner>               // every owner this connection has had
    ghost var endedAt: map<nat, nat>         // when each ended generation ended, on the lane's log

    /** The lane, the owners and `live`, the hold that may still send, agree. */
    ghost predicate Linked(live: Option<Task>)
      reads this, lane
    {
      && lane.Valid() && LaneSafe(lane.Snapshot(), mine, dispatchOwner, live, endedAt)
      && (dispatchOwner.Some? ==> dispatchOwner.value in mine)
      && (live.Some? ==> dispatchOwner.Some?)
      && repeatOwners == (if live.Some? then map[live.value.generation := dispatchOwner.value] else map[])
    }

    ghost predicate Consistent(g: Relay.Grammar)
      reads this, lane, repeater, relay, relay.swipe
    {
      && repeater.Valid() && relay.Valid() && Linked(repeater.active)
      && (forall g: nat :: g in endedAt <==> g in repeater.ended)
      && (repeater.active.Some? ==> g == Relay.Holding(repeater.active.value.key))
    }

    /** A key repeats only while the relay holds that very direction. */
    ghost predicate Valid()
      reads this, lane, repeater, relay, relay.swipe
    {
      Consistent(Relay.Expected(relay.CurrentHold()))
    }

    constructor (lane: CommandDispatchLane, gestures: Gestures.Config, holdConfig: Relay.HoldConfig, dedupeMs: real)
      requires lane.Valid()
      ensures Valid() && this.lane == lane && fresh(repeater) && fresh(relay) && fresh(relay.swipe)
      ensures dispatchOwner == None && repeater.active == None
    {
      this.lane := lane;
      repeater := new HoldRepeater();
      relay := new Relay.CommandRelay(gestures, holdConfig, dedupeMs);
      dispatchOwner, repeatOwners, tasksToDrain, mine, endedAt := None, map[], {}, {}, map[];
    }

    /** Discard unsent delayed work of a hold that has just ended. */
    method CancelRepeatGeneration(generation: nat, byWorker: bool, ghost task: Task)
      requires Linked(Some(task)) && task.generation == generation
      modifies this`repeatOwners, this`endedAt, lane
      ensures Linked(None) && endedAt == old(endedAt)[generation := |lane.log|] && Extends(old(endedAt), endedAt)
      ensures lane.Snapshot() == CancelGeneration(old(lane.Snapshot()), dispatchOwner.value, generation, byWorker)
    {
      hide Tagged, NoLateWork, CancelGeneration, Inv, Faithful, Truthful;
      if generation in repeatOwners {
        var owner := repeatOwners[generation];
        repeatOwners := repeatOwners - {generation};
        EndSafe(lane.Snapshot(), byWorker, mine, owner, task, endedAt);
        lane.CancelHold(owner, generation, byWorker);
        endedAt := endedAt[generation := |lane.log|];
      }
    }

    /** What is left in the queue once our live hold is stopped: everything else, in order. */
    ghost function Unheld(): seq<Item>
      reads this, lane, repeater
    {
      if repeater.active.Some? && dispatchOwner.Some?
      then Kept(lane.queue, OfGeneration(dispatchOwner.value, repeater.active.value.generation))
      else lane.queue
    }

    /** Stop every hold and purge its delayed work, before anything else can run. */
    method InvalidateRepeaters(byWorker: bool, ghost g: Relay.Grammar)
      requires Consistent(g)
      modifies this`repeatOwners, this`tasksToDrain, this`endedAt, lane, repeater
      ensures repeater.active == None && forall h :: Consistent(h)
      ensures lane.queue == old(Unheld()) && lane.owners == old(lane.owners) && lane.stopping == old(lane.stopping)
      ensures OthersStay(old(lane.queue), lane.queue, dispatchOwner)
      ensures forall o | old(Unseen(lane.log, o)) :: Unseen(lane.log, o)
      ensures Extends(old(endedAt), endedAt)
    {
      hide LaneSafe, Inv, Faithful, Truthful, Numbered;
      ghost var before := repeater.active;
      if before.Some? && dispatchOwner.Some? {
        KeptIs(lane.queue, OfGeneration(dispatchOwner.value, before.value.generation));
      }
      var tasks := repeater.StopEach();
      for i := 0 to |tasks|
        invariant tasks == if before.Some? then [before.value] else []
        invariant repeater.active == None && repeater.Valid() && relay.Valid()
        invariant repeater.ended == old(repeater.ended) + EndedBy(before)
        invariant forall o | old(Unseen(lane.log, o)) :: Unseen(lane.log, o)
        invariant Extends(old(endedAt), endedAt)
        invariant i == 0 ==> Linked(before) && endedAt == old(endedAt) && lane.Snapshot() == old(lane.Snapshot())
        invariant i == |tasks| ==> Linked(None) && lane.queue == old(Unheld()) && lane.owners == old(lane.owners)
        invariant lane.stopping == old(lane.stopping)
        invariant i == |tasks| ==> forall g: nat :: g in endedAt <==> g in repeater.ended
      {
        CancelRepeatGeneration(tasks[i].generation, byWorker, before.value);
      }
      tasksToDrain := tasksToDrain + set t <- tasks :: t;
    }

    /** Withdraw this session from the lane. */
    method EndDispatchSession(byWorker: bool)
      requires repeater.active == None && forall h :: Consistent(h)
      modifies this`dispatchOwner, lane
      ensures forall h :: Consistent(h)
      ensures dispatchOwner == None && (old(dispatchOwner).Some? ==> old(dispatchOwner).value !in lane.owners)
      ensures OthersStay(old(lane.queue), lane.queue, old(dispatchOwner)) && lane.stopping == old(lane.stopping)
      ensures forall o | old(Unseen(lane.log, o)) :: Unseen(lane.log, o)
      ensures Extends(old(endedAt), endedAt)
    {
      hide Inv, Faithful, Truthful;
      if dispatchOwner.Some? {
        KeptIs(lane.queue, OfOwner(dispatchOwner.value));
      }
      assert Consistent(Relay.Idle);
      var owner := dispatchOwner;
      dispatchOwner := None;
      if owner.Some? {
        ApplySafe(lane.Snapshot(), lane.maxQueueSize, DoCancelOwner(owner.value, byWorker), mine, None, None, endedAt);
        lane.CancelOwner(owner.value, byWorker);
      }
    }

    /** A new session: the old hold is purged under its old owner first. */
    method BeginDispatchSession(owner: Owner)
      requires Valid() && Unseen(lane.log, owner)
      modifies this, lane, repeater
      ensures Valid() && repeater.active == None && dispatchOwner == Some(owner)
      ensures !old(lane.stopping) ==> owner in lane.owners && Alive(lane.worker)
      ensures OthersStay(old(lane.queue), lane.queue, old(dispatchOwner))
      ensures Extends(old(endedAt), endedAt)
    {
      hide LaneSafe, Inv, Faithful, Truthful, Numbered;
      InvalidateRepeaters(false, Relay.Expected(relay.CurrentHold()));
      EndDispatchSession(false);
      assert Consistent(Relay.Idle);
      FreshOwnerSafe(lane.Snapshot(), lane.maxQueueSize, mine, owner, endedAt);
      mine, dispatchOwner := mine + {owner}, Some(owner);
      ApplySafe(lane.Snapshot(), lane.maxQueueSize, DoActivate(owner), mine, dispatchOwner, None, endedAt);
      lane.Activate(owner);
    }

    /** Fail closed: no hold repeats and this session's work is gone before the transport closes. */
    method CloseConnection(byWorker: bool, ghost g: Relay.Grammar)
      requires Consistent(g)
      modifies this`repeatOwners, this`tasksToDrain, this`endedAt, this`dispatchOwner, lane, repeater
      ensures repeater.active == None && forall h :: Consistent(h)
      ensures dispatchOwner == None && (old(dispatchOwner).Some? ==> old(dispatchOwner).value !in lane.owners)
      ensures OthersStay(old(lane.queue), lane.queue, old(dispatchOwner))
      ensures Extends(old(endedAt), endedAt)
    {
      hide LaneSafe, Inv, Faithful, Truthful, Numbered;
      InvalidateRepeaters(byWorker, g);
      EndDispatchSession(byWorker);
    }

    /** The lane after a command handed in under the current session, and whether it was taken. */
    ghost function Submitted(command: Command): (State, bool)
      reads this, lane
    {
      if dispatchOwner.Some? then Enqueue(lane.Snapshot(), lane.maxQueueSize, dispatchOwner.value, command, None, false, true)
      else (lane.Snapshot(), false)
    }

    /** Hand a command to the lane under the current session; a revoked one closes the connection. */
    method SubmitDispatch(command: Command, authorized: bool, ghost g: Relay.Grammar) returns (taken: bool)
      requires Consistent(g)
      modifies this`repeatOwners, this`tasksToDrain, this`endedAt, this`dispatchOwner, lane, repeater
      ensures Consistent(g)
      ensures authorized ==> (lane.Snapshot(), taken) == old(Submitted(command))
      ensures authorized ==> dispatchOwner == old(dispatchOwner) && repeater.active == old(repeater.active) && endedAt == old(endedAt)
      ensures taken ==> authorized && dispatchOwner.Some?
      ensures !taken && !authorized && old(dispatchOwner).Some? && old(dispatchOwner).value in old(lane.owners) && !old(lane.stopping) ==>
                dispatchOwner == None && repeater.active == None
      ensures Extends(old(endedAt), endedAt)
    {
      hide LaneSafe, Inv, Faithful, Truthful, Numbered, Enqueue;
      if dispatchOwner.None? {
        return false;
      }
      var owner := dispatchOwner.value;
      var registered := !lane.stopping && owner in lane.owners;
      ApplySafe(lane.Snapshot(), lane.maxQueueSize, DoSubmit(owner, command, authorized), mine, dispatchOwner, repeater.active, endedAt);
      RefusedUnchanged(lane.Snapshot(), lane.maxQueueSize, owner, command, None, false, authorized);
      taken := lane.Submit(owner, command, authorized);
      if registered && !authorized {
        CloseConnection(false, g);
      }
    }

    method StopHold(key: string, ghost g: Relay.Grammar)
      requires Consistent(g) && (repeater.active.Some? ==> repeater.active.value.key == key)
      modifies this`repeatOwners, this`endedAt, lane, repeater
      ensures repeater.active == None && forall h :: Consistent(h)
      ensures lane.queue == old(Unheld()) && lane.owners == old(lane.owners)
      ensures Extends(old(endedAt), endedAt)
    {
      hide LaneSafe, Inv, Faithful, Truthful, Numbered;
      ghost var before := repeater.active;
      var generation := repeater.Stop(key);
      if generation.Some? {
        CancelRepeatGeneration(generation.value, false, before.value);
      }
    }

    /** Receive a command from the relay. A hold's start submits one immediate click of its own before
        the repeater is started; its stop purges only what the repeater had delayed. */
    method DispatchSink(command: Command, authorized: bool, ghost g: Relay.Grammar)
      requires Consistent(g) && Relay.Parse(g, Relay.Touched(command)) != Relay.Broken
      modifies this, lane, repeater
      ensures Consistent(Relay.Parse(g, Relay.Touched(command)))
      ensures command.phase == Some(Start) && authorized ==>
                && var (s, taken) := old(Submitted(Click(command.key.value, true)));
                   lane.Snapshot() == s && (taken <==> repeater.active.Some?)
      ensures command.phase == Some(Start) && repeater.active.Some? ==>
                && authorized && repeater.active.value.key == command.key.value
                && lane.queue == old(lane.queue) + [lane.queue[|old(lane.queue)|]]
                && First(lane.queue[|old(lane.queue)|], command.key.value, dispatchOwner)
      ensures command.phase == Some(Stop) ==> repeater.active == None && lane.queue == old(Unheld())
      ensures command.phase.None? && authorized ==>
                repeater.active == old(repeater.active) && dispatchOwner == old(dispatchOwner) && lane.Snapshot() == old(Submitted(command)).0
      ensures Extends(old(endedAt), endedAt)
    {
      hide LaneSafe, Inv, Faithful, Truthful, Numbered;
      match command.phase
      case Some(Start) =>
        var key := command.key.value;
        var owner := dispatchOwner;
        var taken := SubmitDispatch(Click(key, true), authorized, g);
        if taken {
          var generation := repeater.Start(key);
          assert repeater.Live(generation) && generation !in repeater.ended;
          NewHoldSafe(lane.Snapshot(), mine, dispatchOwner, Task(key, generation), endedAt);
          repeatOwners := if generation in repeatOwners then repeatOwners else repeatOwners[generation := owner.value];
        }
      case Some(Stop) =>
        StopHold(command.key.value, g);
      case None =>
        var _ := SubmitDispatch(command, authorized, g);
    }

    /** The discrete commands a touch resolves to now. */
    ghost function Resolved(action: Gestures.TouchAction, cx: int, cy: int, at: real): seq<Command>
      reads this, relay, relay.swipe
    {
      var gs := Gestures.Fed(relay.swipe.config, relay.swipe.track, action, cx, cy).1;
      if relay.holdConfig.enabled
      then Relay.Heard(None, None, gs, relay.holdWasActive, relay.suppressClickUntilPress, at, relay.lastSelectMs, relay.dedupeMs).0
      else Relay.Sounded(gs, at, relay.lastSelectMs, relay.dedupeMs).0
    }

    /** Let the relay make what it will of a touch; nothing is dispatched yet. */
    method Heed(action: Gestures.TouchAction, cx: int, cy: int, at: real) returns (sent: seq<Command>)
      requires Valid()
      modifies relay, relay.swipe
      ensures Consistent(Relay.Expected(old(relay.CurrentHold())))
      ensures Relay.ParseAll(Relay.Expected(old(relay.CurrentHold())), sent) == Relay.Expected(relay.CurrentHold())
      ensures relay.CurrentHold() == old(relay.CurrentHold()) ==> sent == old(Resolved(action, cx, cy, at)) && Plain(sent)
      ensures old(relay.CurrentHold()).None? && relay.CurrentHold().Some? ==> sent == [Relay.HoldCommand(relay.CurrentHold().value, Start)]
      ensures action in {Gestures.Press, Gestures.Release, Gestures.TouchClick} ==> relay.CurrentHold() == None
      ensures action in {Gestures.Press, Gestures.Release, Gestures.TouchClick} && old(relay.CurrentHold()).Some? ==>
                |sent| == 1 && sent[0].phase == Some(Stop)
    {
      hide LaneSafe, Inv, Faithful, Truthful, Numbered, Relay.Sounded, Gestures.Fed, Relay.ParseAll, Relay.Trace;
      ghost var was := relay.CurrentHold();
      ghost var held, suppressed, last := relay.holdWasActive, relay.suppressClickUntilPress, relay.lastSelectMs;
      ghost var gs := Gestures.Fed(relay.swipe.config, relay.swipe.track, action, cx, cy).1;
      ghost var dwell, track := relay.State(), relay.swipe.track;
      sent := relay.OnTouch(action, cx, cy, at);
      if was.None? && relay.CurrentHold().Some? {
        Relay.StartHeard(relay.swipe.config, track, dwell, relay.holdConfig.activateMs, action, cx, cy,
                         relay.swipe.CurrentDirection(), at, last, relay.dedupeMs);
      }
      Relay.HeardParses(was, relay.CurrentHold(), gs, held, suppressed, at, last, relay.dedupeMs);
      Relay.SoundedIsDiscrete(gs, at, last, relay.dedupeMs);
      Relay.SoundedParses(Relay.Idle, gs, at, last, relay.dedupeMs);
    }

    /** One touch frame. `authorized(i)` is what the owner's check answers for the i-th command. */
    method Touch(action: Gestures.TouchAction, cx: int, cy: int, at: real, authorized: nat -> bool)
      requires Valid()
      modifies this, lane, repeater, relay, relay.swipe
      ensures Valid()
      ensures action in {Gestures.Press, Gestures.Release, Gestures.TouchClick} ==> repeater.active == None
      // Taps and swipes are handed in, all of them in order, as the relay resolves them.
      ensures (forall i: nat :: authorized(i)) && relay.CurrentHold() == old(relay.CurrentHold()) ==>
                lane.Snapshot() == SubmittedAll(old(lane.Snapshot()), lane.maxQueueSize, old(dispatchOwner), old(Resolved(action, cx, cy, at)))
      // A hold that starts hands in one click and, if that is taken, repeats its key.
      ensures (forall i: nat :: authorized(i)) && old(relay.CurrentHold()).None? && relay.CurrentHold().Some? ==>
                var key := KeyOf(relay.CurrentHold().value);
                && lane.Snapshot() == old(Submitted(Click(key, true))).0
                && (repeater.active.Some? <==> old(Submitted(Click(key, true))).1)
                && (repeater.active.Some? ==> repeater.active.value.key == key)
      // Ending a hold takes out its delayed work and nothing else.
      ensures action in {Gestures.Press, Gestures.Release, Gestures.TouchClick} && old(relay.CurrentHold()).Some? ==>
                lane.queue == old(Unheld())
      ensures Extends(old(endedAt), endedAt)
    {
      hide LaneSafe, Inv, Faithful, Truthful, Numbered, Relay.ParseAll, SubmittedAll, Plain;
      ghost var was := relay.CurrentHold();
      var sent := Heed(action, cx, cy, at);
      DispatchEach(sent, authorized, Relay.Expected(was));
    }

    /** The lane is as submitting left it, and if the click was taken its key repeats. */
    ghost predicate Begins(submitted: (State, bool), key: string)
      reads this, lane, repeater
    {
      && lane.Snapshot() == submitted.0 && (repeater.active.Some? <==> submitted.1)
      && (repeater.active.Some? ==> repeater.active.value.key == key)
    }

    method DispatchEach(sent: seq<Command>, authorized: nat -> bool, ghost start: Relay.Grammar)
      requires Consistent(start) && Relay.ParseAll(start, sent) != Relay.Broken
      modifies this, lane, repeater
      ensures Consistent(Relay.ParseAll(start, sent))
      ensures (forall i: nat :: authorized(i)) && Plain(sent) ==>
                lane.Snapshot() == SubmittedAll(old(lane.Snapshot()), lane.maxQueueSize, old(dispatchOwner), sent)
      ensures |sent| == 1 && sent[0].phase == Some(Stop) ==> repeater.active == None && lane.queue == old(Unheld())
      ensures |sent| == 1 && sent[0].phase == Some(Start) && authorized(0) && start == Relay.Idle && sent[0].key.Some? ==>
                Begins(old(Submitted(Click(sent[0].key.value, true))), sent[0].key.value)
      ensures Extends(old(endedAt), endedAt)
    {
      hide Consistent, Relay.Parse, Enqueue;
      ghost var g := start;
      for i := 0 to |sent|
        invariant Consistent(g) && g == Relay.ParseAll(start, sent[..i]) && Extends(old(endedAt), endedAt)
        invariant (forall k: nat :: authorized(k)) && Plain(sent) ==>
                    && dispatchOwner == old(dispatchOwner)
                    && lane.Snapshot() == SubmittedAll(old(lane.Snapshot()), lane.maxQueueSize, old(dispatchOwner), sent[..i])
        invariant i == 0 ==> lane.queue == old(lane.queue) && Unheld() == old(Unheld())
        invariant i == 0 ==> forall c :: Submitted(c) == old(Submitted(c))
        invariant i == 1 && sent[0].phase == Some(Start) && authorized(0) && start == Relay.Idle && sent[0].key.Some? ==>
                    Begins(old(Submitted(Click(sent[0].key.value, true))), sent[0].key.value)
        invariant i == 1 && sent[0].phase == Some(Stop) ==> repeater.active == None && lane.queue == old(Unheld())
      {
        assert sent[..i + 1][..i] == sent[..i];
        Relay.PrefixParses(start, sent, i + 1);
        DispatchSink(sent[i], authorized(i), g);
        g := Relay.Parse(g, Relay.Touched(sent[i]));
      }
      assert sent[..|sent|] == sent;
    }

    /** A button, a volume step or a text replacement. */
    method Other(command: Command, authorized: bool)
      requires Valid() && command.phase.None?
      modifies this, lane, repeater
      ensures Valid()
      ensures authorized ==> repeater.active == old(repeater.active) && lane.Snapshot() == old(Submitted(command)).0
      ensures Extends(old(endedAt), endedAt)
    {
      DispatchSink(command, authorized, Relay.Expected(relay.CurrentHold()));
    }

    /** The touch session ended without a release: the hold is over, and its first click still goes out. */
    method TouchStop()
      requires Valid()
      modifies this, lane, repeater
      ensures Valid() && repeater.active == None
      ensures lane.queue == old(Unheld()) && forall x | x in old(lane.queue) && x.generation.None? :: x in lane.queue
      ensures Extends(old(endedAt), endedAt)
    {
      hide LaneSafe, Inv, Faithful, Truthful, Numbered;
      if repeater.active.Some? && dispatchOwner.Some? {
        KeptIs(lane.queue, OfGeneration(dispatchOwner.value, repeater.active.value.generation));
      }
      InvalidateRepeaters(false, Relay.Expected(relay.CurrentHold()));
    }

    /** The session or the connection is over. */
    method EndSession()
      requires Valid()
      modifies this, lane, repeater
      ensures Valid() && repeater.active == None && dispatchOwner == None
      ensures old(dispatchOwner).Some? ==> old(dispatchOwner).value !in lane.owners
      ensures OthersStay(old(lane.queue), lane.queue, old(dispatchOwner))
      ensures Extends(old(endedAt), endedAt)
    {
      hide LaneSafe, Inv, Faithful, Truthful, Numbered;
      CloseConnection(false, Relay.Expected(relay.CurrentHold()));
    }

    /** A repeat task, possibly one long stopped, reaches its send. */
    method SendRepeat(task: Task, clientAuthorized: bool, laneAuthorized: bool) returns (done: Option<nat>)
      requires Valid() && task in repeater.issued
      modifies this, lane, repeater
      ensures Valid()
      ensures done.Some? ==> clientAuthorized && old(repeater.active) == Some(task) && dispatchOwner == old(dispatchOwner)
      ensures clientAuthorized && laneAuthorized && old(repeater.active) == Some(task) ==>
                (lane.Snapshot(), done.Some?)
                == old(EnqueueAndWait(lane.Snapshot(), lane.maxQueueSize, dispatchOwner.value, Click(task.key, true), task.generation, true))
      ensures !clientAuthorized ==> repeater.active == None && dispatchOwner == None
      ensures Extends(old(endedAt), endedAt)
    {
      hide LaneSafe, Inv, Faithful, Truthful, Enqueue;
      ghost var g := Relay.Expected(relay.CurrentHold());
      if !clientAuthorized {
        CloseConnection(false, g);
        return None;
      }
      if task.generation !in repeatOwners {
        return None;
      }
      var owner := repeatOwners[task.generation];
      var registered := !lane.stopping && owner in lane.owners;
      var command := Click(task.key, true);
      ApplySafe(lane.Snapshot(), lane.maxQueueSize, DoSubmitAndWait(owner, command, task.generation, laneAuthorized),
                mine, dispatchOwner, repeater.active, endedAt);
      RefusedUnchanged(lane.Snapshot(), lane.maxQueueSize, owner, command, Some(task.generation), true, laneAuthorized);
      done := lane.SubmitAndWait(owner, command, task.generation, laneAuthorized);
      if registered && !laneAuthorized {
        CloseConnection(false, g);
      }
    }

    /** A repeat task ends by itself: cap, failed send, or a refused one. */
    method RepeatEnds(task: Task)
      requires Valid()
      modifies this, lane, repeater
      ensures Valid() && (old(repeater.active) == Some(task) ==> repeater.active == None && lane.queue == old(Unheld()))
      ensures old(repeater.active) != Some(task) ==> repeater.active == old(repeater.active) && lane.queue == old(lane.queue)
      ensures Extends(old(endedAt), endedAt)
    {
      hide LaneSafe, Inv, Faithful, Truthful, Numbered;
      ghost var before := repeater.active;
      var mineToEnd := task.key in repeater.tasks && repeater.tasks[task.key] == task;
      repeater.Finished(task);
      if mineToEnd {
        CancelRepeatGeneration(task.generation, false, task);
      }
    }

    /** The worker takes an item, ours or another connection's. Delayed work of ours begins only for
        the key this connection's relay is holding, under its current session. */
    method WorkerTakes(authorized: bool) returns (begun: bool)
      requires Valid() && Enabled(lane.Snapshot(), DoPop(authorized))
      modifies this, lane, repeater
      ensures Valid()
      ensures begun ==> authorized && lane.current == Some(old(lane.queue)[0])
      ensures authorized ==> lane.Snapshot() == old(Pop(lane.Snapshot(), true))
      ensures begun && lane.current.value.owner in mine && lane.current.value.generation.Some? ==>
                && relay.CurrentHold().Some? && lane.current.value.command == Click(KeyOf(relay.CurrentHold().value), true)
                && repeater.active == Some(Task(KeyOf(relay.CurrentHold().value), lane.current.value.generation.value))
                && dispatchOwner == Some(lane.current.value.owner)
      ensures Extends(old(endedAt), endedAt)
    {
      hide LaneSafe, Inv, Faithful, Truthful, Numbered, Pop;
      var owner := lane.queue[0].owner;
      var registered := owner in lane.owners;
      HeadIsTagged(lane.Snapshot(), mine, dispatchOwner, repeater.active, endedAt);
      ApplySafe(lane.Snapshot(), lane.maxQueueSize, DoPop(authorized), mine, dispatchOwner, repeater.active, endedAt);
      begun := lane.WorkerTakes(authorized);
      if registered && !authorized && dispatchOwner == Some(owner) {
        CloseConnection(true, Relay.Expected(relay.CurrentHold()));
      }
    }

    /** The worker finishes; a revocation found on the way to the television closes the connection. */
    method WorkerFinishes(ending: Ending)
      requires Valid() && lane.current.Some?
      modifies this, lane, repeater
      ensures Valid()
      ensures ending != Revoked ==> lane.Snapshot() == old(Finish(lane.Snapshot(), ending))
      ensures ending == Revoked && dispatchOwner == Some(old(lane.current).value.owner) ==> dispatchOwner.value !in old(lane.owners)
      ensures Extends(old(endedAt), endedAt)
    {
      hide LaneSafe, Inv, Faithful, Truthful, Numbered, Finish;
      var owner := lane.current.value.owner;
      var registered := owner in lane.owners;
      ApplySafe(lane.Snapshot(), lane.maxQueueSize, DoFinish(ending), mine, dispatchOwner, repeater.active, endedAt);
      lane.WorkerFinishes(ending);
      if ending == Revoked && registered && dispatchOwner == Some(owner) {
        CloseConnection(true, Relay.Expected(relay.CurrentHold()));
      }
    }

    /** Anything else that happens to the shared lane, other connections' delayed work included. */
    method Elsewhere(call: Call)
      requires Valid() && Enabled(lane.Snapshot(), call)
      requires call.DoSubmitAndWait? ==> call.owner !in mine
      modifies lane
      ensures Valid() && lane.Snapshot() == old(Apply(lane.Snapshot(), lane.maxQueueSize, call))
      ensures Extends(old(endedAt), endedAt)
    {
      hide LaneSafe, Inv, Faithful, Truthful, Numbered, Apply;
      ApplySafe(lane.Snapshot(), lane.maxQueueSize, call, mine, dispatchOwner, repeater.active, endedAt);
      lane.Perform(call);
    }

    ghost predicate Possible(step: Step)
      reads this, lane, repeater
    {
      match step
      case OtherInput(command, _) => command.phase.None?
      case SessionStarts(owner) => Unseen(lane.log, owner)
      case TimerFires(task, _, _) => task in repeater.issued
      case OnLane(call) => Enabled(lane.Snapshot(), call) && (call.DoSubmitAndWait? ==> call.owner !in mine)
      case _ => true
    }

    /** Whatever happens next, among touch frames, timers, sessions, the worker and other connections,
        an ended hold's work is never handed in or begun again. */
    method AnyStep(step: Step)
      requires Valid() && Possible(step)
      modifies this, lane, repeater, relay, relay.swipe
      ensures Valid() && NoLateWork(lane.log, mine, endedAt)
      ensures Extends(old(endedAt), endedAt) && forall g: nat :: g in endedAt <==> g in repeater.ended
    {
      hide Inv, Faithful, Truthful, Numbered, Pop, Apply, Finish, Tagged;
      match step {
        case TouchFrame(action, cx, cy, at, authorized) => Touch(action, cx, cy, at, authorized);
        case OtherInput(command, authorized) => Other(command, authorized);
        case TouchEnds => TouchStop();
        case SessionStarts(owner) => BeginDispatchSession(owner);
        case SessionEnds => EndSession();
        case TimerFires(task, client, owner) => var _ := SendRepeat(task, client, owner);
        case TimerEnds(task) => RepeatEnds(task);
        case OnLane(DoPop(authorized)) => var _ := WorkerTakes(authorized);
        case OnLane(DoFinish(ending)) => WorkerFinishes(ending);
        case OnLane(call) => Elsewhere(call);
      }
    }
  }
}
