/** The dispatch lane itself: fields updated in place by its callers and by its one worker. */
module CommandDispatch {
  import opened Base
  import opened Remote
  import opened DispatchLane
  import opened DispatchAnswers

  /** One turn of the purge: the item goes, or joins what is retained. */
  lemma DiscardStep(retained: seq<Item>, cs: seq<Outcome>, q: seq<Item>, i: nat, d: Doom)
    requires i < |q|
    ensures retained + Kept(q[i..], d)
            == (if Hits(d, q[i]) then retained else retained + [q[i]]) + Kept(q[i + 1..], d)
    ensures CancelDoomed(cs, q[i..], d)
            == CancelDoomed(if Hits(d, q[i]) then Settle(cs, q[i].completion, Cancelled) else cs, q[i + 1..], d)
  {
    assert q[i..][0] == q[i] && q[i..][1..] == q[i + 1..];
  }

  lemma {:induction false} UnhitStays(q: seq<Item>, d: Doom)
    ensures (forall x | x in q :: !Hits(d, x)) ==> Kept(q, d) == q
  {
    if q != [] {
      UnhitStays(q[1..], d);
      assert q == [q[0]] + q[1..];
    }
  }

  lemma NothingLeft(q: seq<Item>, cs: seq<Outcome>, d: Doom)
    ensures q[0..] == q && q[|q|..] == [] && Kept([], d) == [] && CancelDoomed(cs, [], d) == cs
  {
  }

  class CommandDispatchLane {
    const maxQueueSize: nat
    var queue: seq<Item>
    var owners: set<Owner>
    var current: Option<Item>
    var completions: seq<Outcome>
    var worker: Worker
    var stopping: bool
    var wake: bool
    var clock: nat           // how much has happened: the next ticket
    ghost var log: Log

    ghost function Snapshot(): State
      reads this
    {
      State(queue, owners, current, completions, worker, stopping, wake, log)
    }

    ghost predicate Valid()
      reads this
    {
      Inv(Snapshot(), maxQueueSize) && Faithful(Snapshot()) && Truthful(Snapshot()) && clock == |log|
    }

    constructor (maxQueueSize: nat)
      requires maxQueueSize > 0
      ensures Valid() && Snapshot() == New && this.maxQueueSize == maxQueueSize
    {
      this.maxQueueSize := maxQueueSize;
      queue, owners, current, completions := [], {}, None, [];
      worker, stopping, wake, clock, log := Absent, false, false, 0, [];
      new;
      NewIsFit(maxQueueSize);
    }

    /** A finished future is never settled again. */
    method SettleCompletion(c: Option<nat>, o: Outcome)
      modifies this`completions
      ensures completions == Settle(old(completions), c, o)
    {
      if c.Some? && c.value < |completions| && completions[c.value] == Pending {
        completions := completions[c.value := o];
      }
    }

    method DiscardQueued(d: Doom) returns (dropped: bool)
      modifies this`queue, this`completions
      ensures queue == Kept(old(queue), d)
      ensures completions == CancelDoomed(old(completions), old(queue), d)
      ensures dropped <==> exists x <- old(queue) :: Hits(d, x)
    {
      hide Kept, CancelDoomed, Settle;
      dropped := false;
      NothingLeft(queue, completions, d);
      var retained: seq<Item> := [];
      var q := queue;
      for i := 0 to |q|
        invariant queue == q == old(queue)
        invariant retained + Kept(q[i..], d) == Kept(q, d)
        invariant CancelDoomed(completions, q[i..], d) == CancelDoomed(old(completions), q, d)
        invariant dropped <==> exists k :: 0 <= k < i && Hits(d, q[k])
      {
        DiscardStep(retained, completions, q, i, d);
        if Hits(d, q[i]) {
          SettleCompletion(q[i].completion, Cancelled);
          dropped := true;
        } else {
          retained := retained + [q[i]];
        }
      }
      NothingLeft(q, completions, d);
      queue := retained;
    }

    /** Throw away queued work, and mark the running command if it is hit. */
    method Discard(d: Doom, byWorker: bool) returns (dropped: bool)
      requires clock == |log|
      modifies this
      ensures Snapshot() == old(Purge(Snapshot(), d, byWorker)).(owners := old(owners)) && clock == |log|
      ensures dropped <==> (exists x <- old(queue) :: Hits(d, x)) || (old(current).Some? && Hits(d, old(current).value))
    {
      hide Kept, CancelDoomed;
      var hit := current.Some? && Hits(d, current.value);
      dropped := DiscardQueued(d);
      if hit {
        SettleCompletion(current.value.completion, Cancelled);
        current := Some(current.value.(cancelled := true));
        if worker == Running && !byWorker {
          worker := Interrupted;
        }
        dropped := true;
      }
      log, clock := log + [Notice(d)], clock + 1;
    }

    method DeactivateOwner(owner: Owner, byWorker: bool)
      requires clock == |log|
      modifies this
      ensures Snapshot() == old(Deactivate(Snapshot(), owner, byWorker)) && clock == |log|
      ensures owner !in owners && wake && stopping == old(stopping)
    {
      hide Kept, CancelDoomed;
      owners := owners - {owner};
      var _ := Discard(OfOwner(owner), byWorker);
      wake := true;
    }

    method Activate(owner: Owner)
      requires Valid()
      modifies this
      ensures Valid() && Snapshot() == old(DispatchLane.Activate(Snapshot(), owner))
    {
      hide Inv, Faithful, Truthful;
      StepKeeps(Snapshot(), maxQueueSize, DoActivate(owner));
      if !stopping {
        worker := Started(worker);
        owners := owners + {owner};
        log, clock := log + [Activated(owner)], clock + 1;
      }
    }

    method EnqueueCommand(owner: Owner, command: Command, generation: Option<nat>, wait: bool, authorized: bool)
      returns (taken: bool)
      requires clock == |log|
      modifies this
      ensures (Snapshot(), taken) == old(Enqueue(Snapshot(), maxQueueSize, owner, command, generation, wait, authorized))
      ensures clock == |log|
    {
      hide Kept, CancelDoomed;
      if stopping || owner !in owners {
        return false;
      }
      if !authorized {
        DeactivateOwner(owner, false);
        return false;
      }
      var n := |queue| - 1;
      if command.action == SendText && !wait && queue != [] && queue[n].owner == owner && queue[n].completion.None?
        && queue[n].command.action == SendText
      {
        log, clock := log + [Replaced(queue[n].ticket, owner, command)], clock + 1;
        queue := queue[n := queue[n].(command := command)];
        return true;
      }
      if |queue| >= maxQueueSize {
        return false;
      }
      var item := Item(clock, owner, command, generation, if wait then Some(|completions|) else None, false);
      completions := if wait then completions + [Pending] else completions;
      queue, wake := queue + [item], true;
      log, clock := log + [Accepted(item)], clock + 1;
      return true;
    }

    /** Fire and forget. `authorized` is what the owner's own check answers now. */
    method Submit(owner: Owner, command: Command, authorized: bool) returns (taken: bool)
      requires Valid()
      modifies this
      ensures Valid()
      ensures (Snapshot(), taken) == old(Enqueue(Snapshot(), maxQueueSize, owner, command, None, false, authorized))
    {
      hide Inv, Faithful, Truthful, Enqueue;
      StepKeeps(Snapshot(), maxQueueSize, DoSubmit(owner, command, authorized));
      taken := EnqueueCommand(owner, command, None, false, authorized);
    }

    /** Delayed hold work; the caller waits for completion number `done`. */
    method SubmitAndWait(owner: Owner, command: Command, generation: nat, authorized: bool) returns (done: Option<nat>)
      requires Valid()
      modifies this
      ensures Valid()
      ensures (Snapshot(), done.Some?) == old(EnqueueAndWait(Snapshot(), maxQueueSize, owner, command, generation, authorized))
      ensures done.Some? ==> done == Some(|old(completions)|)
    {
      hide Inv, Faithful, Truthful, Enqueue;
      StepKeeps(Snapshot(), maxQueueSize, DoSubmitAndWait(owner, command, generation, authorized));
      var c := |completions|;
      var taken := EnqueueCommand(owner, command, Some(generation), true, authorized);
      if !taken {
        completions := completions + [Cancelled];
        return None;
      }
      return Some(c);
    }

    method CancelOwner(owner: Owner, byWorker: bool)
      requires Valid()
      modifies this
      ensures Valid() && Snapshot() == old(Deactivate(Snapshot(), owner, byWorker))
      ensures owner !in owners && wake && stopping == old(stopping)
    {
      hide Inv, Faithful, Truthful, Deactivate;
      StepKeeps(Snapshot(), maxQueueSize, DoCancelOwner(owner, byWorker));
      DeactivateOwner(owner, byWorker);
    }

    /** Drop one stopped hold's delayed work without touching its immediate first click. */
    method CancelHold(owner: Owner, generation: nat, byWorker: bool)
      requires Valid()
      modifies this
      ensures Valid() && Snapshot() == old(CancelGeneration(Snapshot(), owner, generation, byWorker))
      ensures forall x :: x in queue <==> x in old(queue) && !(x.owner == owner && x.generation == Some(generation))
      ensures queue != old(queue) ==> wake
    {
      hide Inv, Faithful, Truthful, Kept, CancelDoomed;
      KeptIs(queue, OfGeneration(owner, generation));
      UnhitStays(queue, OfGeneration(owner, generation));
      StepKeeps(Snapshot(), maxQueueSize, DoCancelGeneration(owner, generation, byWorker));
      var dropped := Discard(OfGeneration(owner, generation), byWorker);
      if dropped {
        wake := true;
      }
    }

    /** The worker, from one await to the next: pop, ask for authorization again, start. */
    method WorkerTakes(authorized: bool) returns (begun: bool)
      requires Valid() && Enabled(Snapshot(), DoPop(authorized))
      modifies this
      ensures Valid() && Snapshot() == old(Pop(Snapshot(), authorized))
      ensures begun ==> authorized && current == Some(old(queue)[0]) && current.value.owner in owners
      ensures !begun ==> current.None?
    {
      hide Inv, Faithful, Truthful, Kept, CancelDoomed;
      StepKeeps(Snapshot(), maxQueueSize, DoPop(authorized));
      var item := queue[0];
      queue := queue[1..];
      if item.owner !in owners || !authorized {
        if item.owner in owners {
          DeactivateOwner(item.owner, true);
        }
        SettleCompletion(item.completion, Cancelled);
        return false;
      }
      if item.cancelled {
        SettleCompletion(item.completion, Cancelled);
        return false;
      }
      current := Some(item);
      log, clock := log + [Began(item)], clock + 1;
      return true;
    }

    /** The worker, once the television has answered or the dispatch was cut short. */
    method WorkerFinishes(ending: Ending)
      requires Valid() && current.Some?
      modifies this
      ensures Valid() && Snapshot() == old(Finish(Snapshot(), ending))
      // The answer goes on record, and to whoever waits unless the command was cancelled meanwhile.
      ensures |completions| == |old(completions)|
      ensures current.None? && old(log) + [PutDown(old(current).value, ending)] <= log
      ensures forall c | 0 <= c < |old(completions)| && old(completions)[c] == Pending && old(current).value.completion == Some(c) ::
                && (ending == Succeeded ==> completions[c] == Done)
                && (ending == Broke ==> completions[c] == Failed)
                && (ending == Revoked || ending == CutShort ==> completions[c] == Cancelled)
      ensures forall c | 0 <= c < |completions| && old(completions)[c] != Pending :: completions[c] == old(completions)[c]
      ensures ending == Revoked ==> old(current).value.owner !in owners && forall x | x in queue :: x.owner != old(current).value.owner
      ensures ending != Revoked ==>
                && queue == old(queue) && owners == old(owners)
                && forall c | 0 <= c < |completions| && old(current).value.completion != Some(c) :: completions[c] == old(completions)[c]
    {
      hide Inv, Faithful, Truthful, Kept, CancelDoomed;
      StepKeeps(Snapshot(), maxQueueSize, DoFinish(ending));
      CancelDoomedIs(completions, queue, OfOwner(current.value.owner));
      KeptIs(queue, OfOwner(current.value.owner));
      var item := current.value;
      log, clock := log + [PutDown(item, ending)], clock + 1;
      match ending {
        case Succeeded =>
          SettleCompletion(item.completion, Done);
        case Broke =>
          SettleCompletion(item.completion, Failed);
        case Revoked =>
          DeactivateOwner(item.owner, true);
        case CutShort =>
          SettleCompletion(item.completion, Cancelled);
          worker := if stopping || !(item.cancelled || item.owner !in owners) then Dead else Running;
      }
      current := None;
    }

    method WorkerSleeps()
      requires Valid() && Enabled(Snapshot(), DoSleep)
      modifies this
      ensures Valid() && Snapshot() == old(Snapshot()).(wake := false)
    {
      hide Inv, Faithful, Truthful;
      StepKeeps(Snapshot(), maxQueueSize, DoSleep);
      wake := false;
    }

    method WorkerDies()
      requires Valid() && Enabled(Snapshot(), DoDie)
      modifies this
      ensures Valid() && Snapshot() == old(Snapshot()).(worker := Dead)
    {
      hide Inv, Faithful, Truthful;
      StepKeeps(Snapshot(), maxQueueSize, DoDie);
      worker := Dead;
    }

    method Close()
      requires Valid()
      modifies this
      ensures Valid() && Snapshot() == old(CloseBegin(Snapshot()))
      ensures stopping && (!old(stopping) ==> queue == [] && owners == {} && wake && worker != Running)
    {
      hide Inv, Faithful, Truthful, Kept, CancelDoomed;
      StepKeeps(Snapshot(), maxQueueSize, DoClose);
      NothingKept(queue);
      if stopping {
        return;
      }
      stopping, owners := true, {};
      var _ := Discard(Everything, false);
      wake := true;
      if worker == Running {
        worker := Interrupted;
      }
    }

    method CloseDrained()
      requires Valid() && stopping && current.None?
      modifies this
      ensures Valid() && Snapshot() == old(CloseEnd(Snapshot()))
    {
      hide Inv, Faithful, Truthful;
      StepKeeps(Snapshot(), maxQueueSize, DoCloseEnd);
      worker, current := Absent, None;
    }

    /** Any one step, by whoever takes it. */
    method Perform(call: Call)
      requires Valid() && Enabled(Snapshot(), call)
      modifies this
      ensures Valid() && Snapshot() == old(Apply(Snapshot(), maxQueueSize, call))
    {
      hide Inv, Faithful, Truthful, Purge, Enqueue;
      match call {
        case DoActivate(owner) => Activate(owner);
        case DoSubmit(owner, command, authorized) => var _ := Submit(owner, command, authorized);
        case DoSubmitAndWait(owner, command, g, authorized) => var _ := SubmitAndWait(owner, command, g, authorized);
        case DoCancelOwner(owner, byWorker) => CancelOwner(owner, byWorker);
        case DoCancelGeneration(owner, g, byWorker) => CancelHold(owner, g, byWorker);
        case DoPop(authorized) => var _ := WorkerTakes(authorized);
        case DoFinish(e) => WorkerFinishes(e);
        case DoSleep => WorkerSleeps();
        case DoDie => WorkerDies();
        case DoClose => Close();
        case DoCloseEnd => CloseDrained();
      }
    }
  }
}
