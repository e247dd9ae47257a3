/** What a caller who waited learns: a completion tells how the television answered, and nothing else. */
module DispatchAnswers {
  import opened Base
  import opened Remote
  import opened DispatchLane

  /** The item with this completion was put down like this, and nothing had thrown it away by then. */
  ghost predicate AnsweredSo(log: Log, c: nat, e: Ending) {
    exists k :: 0 <= k < |log| && AnsweredAt(log, k, c, e)
  }

  ghost predicate AnsweredAt(log: Log, k: nat, c: nat, e: Ending)
    requires k < |log|
  {
    log[k].PutDown? && log[k].ending == e && log[k].item.completion == Some(c) && !Doomed(log, log[k].item, k)
  }

  ghost predicate BegunBefore(log: Log, item: Item, n: nat) {
    exists j :: 0 <= j < n <= |log| && log[j].Began? && SameTicket(log[j].item, item)
  }

  /** Only what had begun is put down. */
  ghost predicate PutDownWell(log: Log, completions: nat) {
    forall k | 0 <= k < |log| && log[k].PutDown? ::
      && BegunBefore(log, log[k].item, k)
      && (log[k].item.completion.Some? ==> log[k].item.completion.value < completions)
  }

  ghost predicate Tells(s: State, c: nat)
    requires c < |s.completions|
  {
    && (s.completions[c] == Done <==> AnsweredSo(s.log, c, Succeeded))
    && (s.completions[c] == Failed <==> AnsweredSo(s.log, c, Broke))
  }

  ghost predicate Truthful(s: State) {
    && (forall c | 0 <= c < |s.completions| :: Tells(s, c))
    && PutDownWell(s.log, |s.completions|)
    && (s.current.Some? ==> BegunBefore(s.log, s.current.value, |s.log|))
    && (s.current.Some? && s.current.value.cancelled ==> Doomed(s.log, s.current.value, |s.log|))
  }

  // ---------------------------------------------------------------- the log grows

  lemma AnswersGrow(log: Log, e: Event, c: nat, ending: Ending)
    ensures AnsweredSo(log + [e], c, ending) <==>
            AnsweredSo(log, c, ending)
            || (e.PutDown? && e.ending == ending && e.item.completion == Some(c) && !Doomed(log, e.item, |log|))
  {
    var grown := log + [e];
    forall k | 0 <= k < |log| ensures AnsweredAt(grown, k, c, ending) <==> AnsweredAt(log, k, c, ending) {
      if log[k].PutDown? {
        DoomedEarlier(log, e, log[k].item, k);
      }
    }
    if e.PutDown? {
      DoomedEarlier(log, e, e.item, |log|);
      assert AnsweredAt(grown, |log|, c, ending) <==>
             e.ending == ending && e.item.completion == Some(c) && !Doomed(log, e.item, |log|);
    }
  }

  lemma DoomedEarlier(log: Log, e: Event, item: Item, n: nat)
    requires n <= |log|
    ensures Doomed(log + [e], item, n) <==> Doomed(log, item, n)
  {
    assert forall k | 0 <= k < |log| :: (log + [e])[k] == log[k];
  }

  lemma BegunGrows(log: Log, e: Event, item: Item, n: nat)
    requires BegunBefore(log, item, n)
    ensures BegunBefore(log + [e], item, n) && (n == |log| ==> BegunBefore(log + [e], item, n + 1))
  {
    var j :| 0 <= j < n <= |log| && log[j].Began? && SameTicket(log[j].item, item);
    assert (log + [e])[j] == log[j];
  }

  lemma DoomGrows(log: Log, e: Event, item: Item)
    requires Doomed(log, item, |log|) || (item.ticket <= |log| && Cancels(e, item))
    ensures Doomed(log + [e], item, |log| + 1)
  {
    if Doomed(log, item, |log|) {
      var k :| item.ticket <= k < |log| && Cancels(log[k], item);
      assert (log + [e])[k] == log[k];
    } else {
      assert (log + [e])[|log|] == e;
    }
  }

  // ---------------------------------------------------------------- every step

  /** A completion that changes, other than by an answer, is cancelled. */
  predicate OnlyCancelled(cs: seq<Outcome>, ds: seq<Outcome>) {
    && |cs| <= |ds|
    && (forall c | 0 <= c < |cs| :: ds[c] == cs[c] || (cs[c] == Pending && ds[c] == Cancelled))
    && (forall c | |cs| <= c < |ds| :: ds[c] == Pending || ds[c] == Cancelled)
  }

  /** One more event, which is no answer. */
  lemma Extended(s: State, t: State, e: Event)
    requires Truthful(s) && !e.PutDown? && t.log == s.log + [e] && OnlyCancelled(s.completions, t.completions)
    requires t.current.Some? ==>
               || (s.current.Some? && SameTicket(t.current.value, s.current.value)
                   && (t.current.value.cancelled ==>
                         s.current.value.cancelled || (t.current.value.ticket <= |s.log| && Cancels(e, t.current.value))))
               || (e == Began(t.current.value) && !t.current.value.cancelled)
    ensures Truthful(t)
  {
    hide Doomed;
    forall c | 0 <= c < |t.completions| ensures Tells(t, c) {
      AnswersGrow(s.log, e, c, Succeeded);
      AnswersGrow(s.log, e, c, Broke);
      if c < |s.completions| {
        assert Tells(s, c);
      }
    }
    forall k | 0 <= k < |t.log| && t.log[k].PutDown?
      ensures BegunBefore(t.log, t.log[k].item, k)
      ensures t.log[k].item.completion.Some? ==> t.log[k].item.completion.value < |t.completions|
    {
      assert t.log[k] == s.log[k];
      BegunGrows(s.log, e, s.log[k].item, k);
    }
    if t.current.Some? {
      CurrentGrows(s, t, e);
    }
  }

  lemma CurrentGrows(s: State, t: State, e: Event)
    requires Truthful(s) && t.log == s.log + [e] && t.current.Some?
    requires || (s.current.Some? && SameTicket(t.current.value, s.current.value)
                 && (t.current.value.cancelled ==>
                       s.current.value.cancelled || (t.current.value.ticket <= |s.log| && Cancels(e, t.current.value))))
             || (e == Began(t.current.value) && !t.current.value.cancelled)
    ensures BegunBefore(t.log, t.current.value, |t.log|)
    ensures t.current.value.cancelled ==> Doomed(t.log, t.current.value, |t.log|)
  {
    var x := t.current.value;
    if e == Began(x) && !x.cancelled {
      assert t.log[|s.log|] == e && SameTicket(x, x);
    } else {
      BegunGrows(s.log, e, s.current.value, |s.log|);
      assert BegunBefore(t.log, x, |t.log|) by {
        var j :| 0 <= j < |t.log| && t.log[j].Began? && SameTicket(t.log[j].item, s.current.value);
        assert SameTicket(t.log[j].item, x);
      }
      SameTicketSameDoom(s.log, x, s.current.value, |s.log|);
      if x.cancelled {
        DoomGrows(s.log, e, x);
      }
    }
  }

  lemma CancelDoomedOnlyCancels(s: State, d: Doom, byWorker: bool)
    ensures OnlyCancelled(s.completions, Purge(s, d, byWorker).completions)
  {
    CancelDoomedIs(s.completions, s.queue, d);
  }

  lemma PurgeIsTruthful(s: State, d: Doom, byWorker: bool, max: nat)
    requires Truthful(s) && Inv(s, max)
    ensures Truthful(Purge(s, d, byWorker))
  {
    hide Truthful, OnlyCancelled, Doomed, History, ActiveAt, CompletionsInv, InOrder;
    CancelDoomedOnlyCancels(s, d, byWorker);
    if s.current.Some? {
      assert Held(s, s.current.value) && Known(s, s.current.value);
      HitsIsCancels(d, s.current.value);
    }
    Extended(s, Purge(s, d, byWorker), Notice(d));
  }

  /** Putting the running item down settles its completion by the answer, if nothing cancelled it before. */
  lemma PutDownIsTruthful(s: State, e: Ending, max: nat)
    requires Truthful(s) && Inv(s, max) && s.current.Some? && e != Revoked
    ensures Truthful(Finish(s, e))
  {
    hide History, ActiveAt, InOrder, Doomed, Genuine;
    var item, t, put := s.current.value, Finish(s, e), PutDown(s.current.value, e);
    assert t.log == s.log + [put];
    Timely(s, max);
    forall c | 0 <= c < |t.completions| ensures Tells(t, c) {
      AnswersGrow(s.log, put, c, Succeeded);
      AnswersGrow(s.log, put, c, Broke);
      assert Tells(s, c);
    }
    forall k | 0 <= k < |t.log| && t.log[k].PutDown?
      ensures BegunBefore(t.log, t.log[k].item, k)
      ensures t.log[k].item.completion.Some? ==> t.log[k].item.completion.value < |t.completions|
    {
      BegunGrows(s.log, put, if k < |s.log| then s.log[k].item else item, k);
    }
  }

  /** While the item runs, its completion is pending exactly if nothing has thrown it away. */
  lemma Timely(s: State, max: nat)
    requires Truthful(s) && Inv(s, max) && s.current.Some?
    ensures var item := s.current.value;
            item.completion.Some? ==>
              && item.completion.value < |s.completions|
              && (s.completions[item.completion.value] == Pending <==> !Doomed(s.log, item, |s.log|))
  {
    hide History, ActiveAt, InOrder, Doomed, Genuine, Truthful;
    var item := s.current.value;
    assert Truthful(s) ==> (item.cancelled ==> Doomed(s.log, item, |s.log|)) by { CancelledIsDoomed(s); }
    assert Held(s, item) && Known(s, item);
    if item.completion.Some? {
      var c := item.completion.value;
      if !item.cancelled {
        assert InHand(s, item) && Fit(s, item) && Awaited(s, c);
      } else {
        assert item in s.queue ==> InHand(s, item) && Fit(s, item);
        forall x | InHand(s, x) ensures x.completion != Some(c) {
          assert Held(s, x);
        }
        assert !Awaited(s, c);
      }
    }
  }

  lemma CancelledIsDoomed(s: State)
    requires Truthful(s)
    ensures s.current.Some? && s.current.value.cancelled ==> Doomed(s.log, s.current.value, |s.log|)
  {
  }

  /** Nothing is logged, and nothing new runs. */
  lemma SameLog(s: State, t: State)
    requires Truthful(s) && t.log == s.log && OnlyCancelled(s.completions, t.completions)
    requires t.current == s.current || t.current.None?
    ensures Truthful(t)
  {
    hide Doomed, BegunBefore;
    forall c | 0 <= c < |t.completions| ensures Tells(t, c) {
      if c < |s.completions| {
        assert Tells(s, c);
      } else {
        forall k | 0 <= k < |s.log| ensures !AnsweredAt(s.log, k, c, Succeeded) && !AnsweredAt(s.log, k, c, Broke) {
        }
      }
    }
  }

  lemma RevokedIsTruthful(s: State, max: nat)
    requires Truthful(s) && Inv(s, max) && s.current.Some?
    ensures Truthful(Finish(s, Revoked))
  {
    hide History, ActiveAt, InOrder, Doomed, Genuine, CompletionsInv, Truthful;
    var item := s.current.value;
    var u := Noted(s, PutDown(item, Revoked));
    RevokedIsNoAnswer(s, max);
    PutDownKeeps(s, Revoked, max);
    PurgeIsTruthful(u, OfOwner(item.owner), true, max);
    SameLog(Purge(u, OfOwner(item.owner), true), Finish(s, Revoked));
  }

  lemma RevokedIsNoAnswer(s: State, max: nat)
    requires Truthful(s) && Inv(s, max) && s.current.Some?
    ensures Truthful(Noted(s, PutDown(s.current.value, Revoked)))
  {
    hide History, ActiveAt, InOrder, Doomed, Genuine, CompletionsInv;
    var item, put := s.current.value, PutDown(s.current.value, Revoked);
    var t := Noted(s, put);
    assert Held(s, item) && Known(s, item);
    forall c | 0 <= c < |t.completions| ensures Tells(t, c) {
      AnswersGrow(s.log, put, c, Succeeded);
      AnswersGrow(s.log, put, c, Broke);
      assert Tells(s, c);
    }
    forall k | 0 <= k < |t.log| && t.log[k].PutDown?
      ensures BegunBefore(t.log, t.log[k].item, k)
      ensures t.log[k].item.completion.Some? ==> t.log[k].item.completion.value < |t.completions|
    {
      BegunGrows(s.log, put, if k < |s.log| then s.log[k].item else item, k);
    }
    BegunGrows(s.log, put, item, |s.log|);
    if item.cancelled {
      DoomGrows(s.log, put, item);
    }
  }

  lemma EnqueueIsTruthful(s: State, max: nat, owner: Owner, command: Command, generation: Option<nat>, wait: bool, authorized: bool)
    requires Truthful(s) && Inv(s, max)
    ensures Truthful(Enqueue(s, max, owner, command, generation, wait, authorized).0)
  {
    hide Truthful, Inv, Purge, Tells;
    var t := Enqueue(s, max, owner, command, generation, wait, authorized).0;
    if s.stopping || owner !in s.owners {
    } else if !authorized {
      PurgeIsTruthful(s, OfOwner(owner), false, max);
      SameLog(Purge(s, OfOwner(owner), false), t);
    } else if Coalesces(s, owner, command, wait) {
      var last := s.queue[|s.queue| - 1];
      Unchanged(s, t, Replaced(last.ticket, last.owner, command));
    } else if |s.queue| < max {
      Unchanged(s, t, Accepted(t.queue[|s.queue|]));
    }
  }

  lemma Unchanged(s: State, t: State, e: Event)
    requires Truthful(s) && !e.PutDown? && t.log == s.log + [e] && t.current == s.current
    requires t.completions == s.completions || t.completions == s.completions + [Pending]
    ensures Truthful(t)
  {
    Extended(s, t, e);
  }

  lemma PopIsTruthful(s: State, max: nat, authorized: bool)
    requires Truthful(s) && Inv(s, max) && s.queue != [] && s.current.None?
    ensures Truthful(Pop(s, authorized))
  {
    hide Truthful, History, ActiveAt, InOrder, Doomed, Genuine, CompletionsInv;
    var t, item := Pop(s, authorized), s.queue[0];
    assert InHand(s, item) && Fit(s, item);
    if authorized {
      Extended(s, t, Began(item));
    } else {
      var u := s.(queue := s.queue[1..]);
      CancelDoomedOnlyCancels(u, OfOwner(item.owner), true);
      Extended(s, t, Ended(item.owner));
    }
  }

  lemma ApplyIsTruthful(s: State, max: nat, call: Call)
    requires Truthful(s) && Inv(s, max) && Enabled(s, call)
    ensures Truthful(Apply(s, max, call))
  {
    hide Truthful, Inv, Purge, Enqueue, Pop, Finish;
    var t := Apply(s, max, call);
    match call
    case DoActivate(owner) => if !s.stopping { Unchanged(s, t, Activated(owner)); }
    case DoSubmit(owner, command, authorized) => EnqueueIsTruthful(s, max, owner, command, None, false, authorized);
    case DoSubmitAndWait(owner, command, g, authorized) =>
      EnqueueIsTruthful(s, max, owner, command, Some(g), true, authorized);
      SameLog(Enqueue(s, max, owner, command, Some(g), true, authorized).0, t);
    case DoCancelOwner(owner, byWorker) =>
      PurgeIsTruthful(s, OfOwner(owner), byWorker, max);
      SameLog(Purge(s, OfOwner(owner), byWorker), t);
    case DoCancelGeneration(owner, g, byWorker) =>
      PurgeIsTruthful(s, OfGeneration(owner, g), byWorker, max);
      SameLog(Purge(s, OfGeneration(owner, g), byWorker), t);
    case DoPop(authorized) => PopIsTruthful(s, max, authorized);
    case DoFinish(e) => if e == Revoked { RevokedIsTruthful(s, max); } else { PutDownIsTruthful(s, e, max); }
    case DoSleep => SameLog(s, t);
    case DoDie => SameLog(s, t);
    case DoClose =>
      PurgeIsTruthful(s, Everything, false, max);
      SameLog(if s.stopping then s else Purge(s, Everything, false), t);
    case DoCloseEnd => SameLog(s, t);
  }

  // ---------------------------------------------------------------- every run

  /** One step keeps everything the lane promises. */
  lemma StepKeeps(s: State, max: nat, call: Call)
    requires Inv(s, max) && Faithful(s) && Truthful(s) && Enabled(s, call)
    ensures var t := Apply(s, max, call); Inv(t, max) && Faithful(t) && Truthful(t)
  {
    hide *;
    ApplyStep(s, max, call);
    ApplyIsTruthful(s, max, call);
  }

  lemma {:induction false} RunIsTruthful(s: State, max: nat, calls: seq<Call>)
    requires Inv(s, max) && Faithful(s) && Truthful(s) && AllEnabled(s, max, calls)
    ensures var t := After(s, max, calls); Inv(t, max) && Truthful(t)
    decreases |calls|
  {
    hide Inv, Faithful, Truthful, Apply, Enabled;
    if calls != [] {
      StepKeeps(s, max, calls[0]);
      RunIsTruthful(Apply(s, max, calls[0]), max, calls[1..]);
    }
  }

  /** In any run: a completion is done exactly if its item, having begun and not been thrown away since,
      was answered with success; failed exactly if it was answered with a failure; pending exactly while
      the item is in hand; and otherwise cancelled. */
  lemma CompletionTellsAnswer(max: nat, calls: seq<Call>, c: nat)
    requires AllEnabled(New, max, calls)
    ensures var s := After(New, max, calls);
            c < |s.completions| ==>
              && (s.completions[c] == Done <==> AnsweredSo(s.log, c, Succeeded))
              && (s.completions[c] == Failed <==> AnsweredSo(s.log, c, Broke))
              && (s.completions[c] == Pending <==> Awaited(s, c))
    ensures var log := After(New, max, calls).log;
            forall k | 0 <= k < |log| && log[k].PutDown? :: BegunBefore(log, log[k].item, k)
  {
    hide History, Awaited, AnsweredSo, InOrder;
    NewIsFit(max);
    RunIsTruthful(New, max, calls);
    var s := After(New, max, calls);
    assert c < |s.completions| ==> Tells(s, c);
  }
}
