/** Auto-repeat of one held key: which generation is active, which have ended, and how often a hold
    can send. */
module Repeater {
  import opened Base

  /** One repeat task; every start makes a new one under a generation of its own. */
  datatype Task = Task(key: string, generation: nat)

  class HoldRepeater {
    var tasks: map<string, Task>
    var generations: map<string, nat>
    var nextGeneration: nat
    ghost var ended: seq<nat>        // the generations `on_stop` was called with, in order

    ghost var active: Option<Task>
    ghost var issued: set<Task>      // every task ever made

    /** At most one key; its generation has not ended; every other one issued ended exactly once. */
    ghost predicate Valid()
      reads this
    {
      && tasks == (if active.Some? then map[active.value.key := active.value] else map[])
      && generations == (if active.Some? then map[active.value.key := active.value.generation] else map[])
      && (active.Some? ==> active.value in issued)
      && Numbered(issued, nextGeneration)
      && (forall g: nat :: multiset(ended)[g] == if 1 <= g <= nextGeneration && !Live(g) then 1 else 0)
    }

    ghost predicate Live(g: nat)
      reads this
    {
      active.Some? && active.value.generation == g
    }

    constructor ()
      ensures Valid() && active == None && ended == [] && nextGeneration == 0
    {
      tasks, generations, nextGeneration, ended, active := map[], map[], 0, [], None;
      issued := {};
    }

    method Cancel(key: string) returns (generation: Option<nat>, task: Option<Task>)
      requires Valid()
      modifies this
      ensures Valid() && nextGeneration == old(nextGeneration) && issued == old(issued)
      ensures task == if old(active).Some? && old(active).value.key == key then old(active) else None
      ensures generation == if task.Some? then Some(task.value.generation) else None
      ensures active == if task.Some? then None else old(active)
      ensures ended == old(ended) + (if generation.Some? then [generation.value] else [])
    {
      generation := if key in generations then Some(generations[key]) else None;
      task := if key in tasks then Some(tasks[key]) else None;
      generations, tasks := generations - {key}, tasks - {key};
      if generation.Some? {
        ended, active := ended + [generation.value], None;
      }
    }

    /** Begin repeating; another key's hold ends first, and the same key's goes on. */
    method Start(key: string) returns (generation: nat)
      requires Valid()
      modifies this
      ensures Valid() && active == Some(Task(key, generation)) && issued == old(issued) + {Task(key, generation)}
      ensures old(active).Some? && old(active).value.key == key ==>
                generation == old(active).value.generation && nextGeneration == old(nextGeneration) && ended == old(ended)
      ensures !(old(active).Some? && old(active).value.key == key) ==>
                && generation == nextGeneration == old(nextGeneration) + 1
                && ended == old(ended) + EndedBy(old(active))
    {
      if key in tasks {
        return generations[key];
      }
      var _ := StopEach();
      nextGeneration := nextGeneration + 1;
      generation := nextGeneration;
      tasks, generations := tasks[key := Task(key, generation)], generations[key := generation];
      active, issued := Some(Task(key, generation)), issued + {Task(key, generation)};
    }

    method StopEach() returns (stopped: seq<Task>)
      requires Valid()
      modifies this
      ensures Valid() && active == None && nextGeneration == old(nextGeneration) && issued == old(issued)
      ensures ended == old(ended) + EndedBy(old(active))
      ensures stopped == if old(active).Some? then [old(active).value] else []
    {
      hide Numbered;
      stopped := [];
      var keys := tasks.Keys + generations.Keys;
      while keys != {}
        invariant Valid() && nextGeneration == old(nextGeneration) && issued == old(issued) && keys == tasks.Keys
        invariant active == old(active) || active == None
        invariant active == old(active) ==> ended == old(ended) && stopped == []
        invariant active != old(active) ==>
                    ended == old(ended) + EndedBy(old(active)) && stopped == [old(active).value]
        decreases |keys|
      {
        var key :| key in keys;
        var _, task := Cancel(key);
        stopped := stopped + (if task.Some? then [task.value] else []);
        keys := keys - {key};
      }
    }

    /** Release. */
    method Stop(key: string) returns (generation: Option<nat>)
      requires Valid()
      modifies this
      ensures Valid() && nextGeneration == old(nextGeneration) && issued == old(issued)
      ensures generation.Some? <==> old(active).Some? && old(active).value.key == key
      ensures generation.Some? ==> generation == Some(old(active).value.generation)
      ensures ended == old(ended) + (if generation.Some? then [generation.value] else [])
      ensures active == if generation.Some? then None else old(active)
    {
      var ended, _ := Cancel(key);
      return ended;
    }

    /** A repeat task that ends by itself clears only its own handle. */
    method Finished(task: Task)
      requires Valid()
      modifies this
      ensures Valid() && nextGeneration == old(nextGeneration) && issued == old(issued)
      ensures active == if old(active) == Some(task) then None else old(active)
      ensures ended == old(ended) + (if old(active) == Some(task) then [task.generation] else [])
    {
      if task.key in tasks && tasks[task.key] == task {
        var _, _ := Cancel(task.key);
      }
    }
  }

  /** No two tasks share a generation. */
  ghost predicate Numbered(ts: set<Task>, next: nat) {
    && (forall t | t in ts :: 1 <= t.generation <= next)
    && (forall t, u | t in ts && u in ts && t.generation == u.generation :: t == u)
  }

  function EndedBy(t: Option<Task>): seq<nat> {
    if t.Some? then [t.value.generation] else []
  }

  // ---------------------------------------------------------------- the cadence

  datatype Cadence = Cadence(initialDelay: real, interval: real, maxHold: real)

  /** One turn of the loop: whether input is still live, how the send goes and how long it takes, and
      how much longer than asked the sleep after it lasts. Being cancelled while asleep shows as not
      being alive in the next turn. */
  datatype Turn = Turn(alive: bool, sent: bool, sendTime: real, oversleep: real)

  predicate Possible(t: Turn) {
    t.sendTime >= 0.0 && t.oversleep >= 0.0
  }

  predicate Punctual(t: Turn) {
    t == Turn(true, true, 0.0, 0.0)
  }

  /** The most repeats a hold can send. */
  function Allowance(c: Cadence): nat
    requires c.interval > 0.0
  {
    Max(0, Ceiling((c.maxHold - c.initialDelay) / c.interval))
  }

  lemma AllowanceIs(c: Cadence, n: nat)
    requires c.interval > 0.0
    ensures c.initialDelay + n as real * c.interval < c.maxHold <==> n < Allowance(c)
  {
    var q := (c.maxHold - c.initialDelay) / c.interval;
    assert q * c.interval == c.maxHold - c.initialDelay;
    if n as real < q {
      assert n as real * c.interval < q * c.interval;
      assert (-q).Floor < -(n as int);
    } else {
      assert n as real * c.interval >= q * c.interval;
    }
  }

  /** When the n-th send may be made, if the ones before it were. */
  function Elapsed(c: Cadence, firstOversleep: real, turns: nat -> Turn, n: nat): real {
    if n == 0 then c.initialDelay + firstOversleep
    else Elapsed(c, firstOversleep, turns, n - 1) + turns(n - 1).sendTime + c.interval + turns(n - 1).oversleep
  }

  lemma FirstElapsed(c: Cadence, firstOversleep: real, turns: nat -> Turn)
    ensures Elapsed(c, firstOversleep, turns, 0) == c.initialDelay + firstOversleep
  {
  }

  lemma NextElapsed(c: Cadence, firstOversleep: real, turns: nat -> Turn, n: nat)
    ensures Elapsed(c, firstOversleep, turns, n + 1)
            == Elapsed(c, firstOversleep, turns, n) + turns(n).sendTime + c.interval + turns(n).oversleep
    ensures Punctual(turns(n)) ==> turns(n) == Turn(true, true, 0.0, 0.0)
  {
  }

  /** The repeat task, started at time zero; it sends at most its allowance, and exactly that when
      nothing is late and nothing stops it. */
  method Repeat(c: Cadence, firstOversleep: real, turns: nat -> Turn) returns (sends: nat)
    requires c.interval > 0.0 && firstOversleep >= 0.0 && forall i: nat :: Possible(turns(i))
    ensures sends <= Allowance(c)
    ensures firstOversleep == 0.0 && (forall i: nat :: Punctual(turns(i))) ==> sends == Allowance(c)
    // It sends while there is time, input is live and sending works, and stops for nothing else.
    ensures forall i | 0 <= i < sends :: turns(i).alive && Elapsed(c, firstOversleep, turns, i) < c.maxHold
    ensures forall i | 0 <= i < sends - 1 :: turns(i).sent
    ensures Elapsed(c, firstOversleep, turns, sends) >= c.maxHold || !turns(sends).alive || (sends > 0 && !turns(sends - 1).sent)
  {
    hide Elapsed, Allowance, Punctual;
    FirstElapsed(c, firstOversleep, turns);
    sends := 0;
    var clock := c.initialDelay + firstOversleep;
    var turn: nat := 0;
    AllowanceIs(c, 0);
    while clock < c.maxHold
      invariant clock >= c.initialDelay + sends as real * c.interval
      invariant firstOversleep == 0.0 && (forall i: nat :: Punctual(turns(i))) ==> clock == c.initialDelay + sends as real * c.interval
      invariant sends <= Allowance(c) && turn == sends && clock == Elapsed(c, firstOversleep, turns, sends)
      invariant forall i | 0 <= i < sends :: turns(i).alive && turns(i).sent && Elapsed(c, firstOversleep, turns, i) < c.maxHold
      decreases Allowance(c) - sends
    {
      AllowanceIs(c, sends);
      NextElapsed(c, firstOversleep, turns, sends);
      var t := turns(turn);
      if !t.alive {
        break;
      }
      sends := sends + 1;
      clock := clock + t.sendTime;
      if !t.sent {
        break;
      }
      clock := clock + c.interval + t.oversleep;
      turn := turn + 1;
      AllowanceIs(c, sends);
    }
    AllowanceIs(c, sends);
  }
}
