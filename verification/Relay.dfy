/** Touch input: swipes and taps, and the dwell that turns a held swipe into an auto-repeat. */
module Gestures {
  import opened Base
  import opened Remote

  datatype TouchAction = Press | Hold | Release | TouchClick | Unknown

  datatype Gesture = Swipe(direction: Direction) | Select

  datatype Config = Config(tapMaxTravel: int, swipeThreshold: int, dominantRatio: real, repeatEvery: int, maxRepeat: int,
                           invertX: bool, invertY: bool)

  datatype Track = Track(startX: int, startY: int, lastX: int, lastY: int)

  function Abs(x: int): nat {
    if x < 0 then -x else x
  }

  /** The direction a displacement points in, if it is long enough and clearly along one axis. */
  function DominantDirection(c: Config, dx: int, dy: int): Option<(Direction, nat)> {
    var x, y := Abs(dx), Abs(dy);
    if Max(x, y) < c.swipeThreshold then None
    else if x >= y then
      if x as real < y as real * c.dominantRatio then None else Some((if dx > 0 then Right else Left, x))
    else
      if (y as real) < x as real * c.dominantRatio then None else Some((if dy > 0 then Down else Up, y))
  }

  function Displacement(c: Config, x0: int, y0: int, x1: int, y1: int): (int, int) {
    (if c.invertX then -(x1 - x0) else x1 - x0, if c.invertY then -(y1 - y0) else y1 - y0)
  }

  /** How many keys one swipe is worth. */
  function RepeatCount(c: Config, travel: nat): int {
    if c.repeatEvery <= 0 then 1 else Min(Max(1, travel / c.repeatEvery), c.maxRepeat)
  }

  function Times(g: Gesture, n: int): seq<Gesture> {
    if n <= 0 then [] else seq(n, _ => g)
  }

  function Resolve(c: Config, x0: int, y0: int, x1: int, y1: int): seq<Gesture> {
    var (dx, dy) := Displacement(c, x0, y0, x1, y1);
    if Max(Abs(dx), Abs(dy)) <= c.tapMaxTravel then [Select]
    else match DominantDirection(c, dx, dy)
      case None => []
      case Some((d, travel)) => Times(Swipe(d), RepeatCount(c, travel))
  }

  function Direct(c: Config, track: Option<Track>): (d: Option<Direction>)
    ensures track.None? ==> d == None
  {
    match track
    case None => None
    case Some(t) =>
      var (dx, dy) := Displacement(c, t.startX, t.startY, t.lastX, t.lastY);
      match DominantDirection(c, dx, dy)
      case None => None
      case Some((d, _)) => Some(d)
  }

  /** One touch point: what is tracked afterwards, and the gestures it completes. */
  function Fed(c: Config, track: Option<Track>, action: TouchAction, cx: int, cy: int): (Option<Track>, seq<Gesture>) {
    match action
    case Press => (Some(Track(cx, cy, cx, cy)), [])
    case Hold => (if track.Some? then Some(track.value.(lastX := cx, lastY := cy)) else None, [])
    case TouchClick => (None, [Select])
    case Release => (None, if track.Some? then Resolve(c, track.value.startX, track.value.startY, cx, cy) else [])
    case Unknown => (track, [])
  }

  /** Up, down, left and right, on the screen's axes unless one is inverted: the longer way, long enough,
      and longer than the other by the ratio; exactly diagonal counts as sideways. */
  lemma PointsWhere(c: Config, dx: int, dy: int, d: Direction)
    requires c.swipeThreshold > 0
    ensures (match DominantDirection(c, dx, dy) case Some((e, _)) => e == d case None => false) <==>
            match d
            case Right => dx >= c.swipeThreshold && dx >= Abs(dy) && dx as real >= Abs(dy) as real * c.dominantRatio
            case Left => -dx >= c.swipeThreshold && -dx >= Abs(dy) && (-dx) as real >= Abs(dy) as real * c.dominantRatio
            case Down => dy >= c.swipeThreshold && dy > Abs(dx) && dy as real >= Abs(dx) as real * c.dominantRatio
            case Up => -dy >= c.swipeThreshold && -dy > Abs(dx) && (-dy) as real >= Abs(dx) as real * c.dominantRatio
  {
  }

  /** A gesture that stays within tapping distance is one SELECT; a swipe is one key for every full
      `repeatEvery` it travels the way it points, at least one and at most `maxRepeat`. */
  lemma ResolvesTo(c: Config, x0: int, y0: int, x1: int, y1: int)
    requires c.maxRepeat >= 1
    ensures var dx, dy := if c.invertX then x0 - x1 else x1 - x0, if c.invertY then y0 - y1 else y1 - y0;
            var gestures, travel := Resolve(c, x0, y0, x1, y1), Max(Abs(dx), Abs(dy));
            if travel <= c.tapMaxTravel then gestures == [Select]
            else match DominantDirection(c, dx, dy)
              case None => gestures == []
              case Some((d, _)) =>
                && 1 <= |gestures| <= c.maxRepeat && (forall g | g in gestures :: g == Swipe(d))
                && (c.repeatEvery <= 0 ==> |gestures| == 1)
                && (c.repeatEvery > 0 ==>
                      && (|gestures| > 1 ==> |gestures| * c.repeatEvery <= travel)
                      && (|gestures| < c.maxRepeat ==> travel < (|gestures| + 1) * c.repeatEvery))
  {
    hide DominantDirection, RepeatCount;
    var dx, dy := if c.invertX then x0 - x1 else x1 - x0, if c.invertY then y0 - y1 else y1 - y0;
    assert (dx, dy) == Displacement(c, x0, y0, x1, y1);
    TravelIs(c, dx, dy);
    CountIs(c, Max(Abs(dx), Abs(dy)));
  }

  lemma TravelIs(c: Config, dx: int, dy: int)
    ensures match DominantDirection(c, dx, dy) case Some((_, travel)) => travel == Max(Abs(dx), Abs(dy)) case None => true
  {
  }

  lemma CountIs(c: Config, travel: nat)
    requires c.maxRepeat >= 1
    ensures var n := RepeatCount(c, travel);
            && 1 <= n <= c.maxRepeat
            && (c.repeatEvery <= 0 ==> n == 1)
            && (c.repeatEvery > 0 ==>
                  (n > 1 ==> n * c.repeatEvery <= travel) && (n < c.maxRepeat ==> travel < (n + 1) * c.repeatEvery))
  {
    if c.repeatEvery > 0 {
      var q, n := travel / c.repeatEvery, RepeatCount(c, travel);
      assert q * c.repeatEvery <= travel < (q + 1) * c.repeatEvery;
      assert n <= q ==> n * c.repeatEvery <= q * c.repeatEvery;
      assert q <= n ==> (q + 1) * c.repeatEvery <= (n + 1) * c.repeatEvery;
    }
  }

  /** Lifting the finger where it was last seen can only complete swipes the way it was pointing, or
      a tap; and it completes some swipe whenever it was pointing anywhere beyond a tap. */
  lemma ReleaseAgrees(c: Config, t: Track)
    requires 0 <= c.tapMaxTravel < c.swipeThreshold && c.maxRepeat >= 1
    ensures var gestures := Fed(c, Some(t), Release, t.lastX, t.lastY).1;
            match Direct(c, Some(t))
            case Some(d) => gestures != [] && forall g | g in gestures :: g == Swipe(d)
            case None => gestures == [] || gestures == [Select]
  {
  }

  function FedAll(c: Config, track: Option<Track>, points: seq<(int, int)>): Option<Track> {
    if points == [] then track
    else Fed(c, FedAll(c, track, points[..|points| - 1]), Hold, points[|points| - 1].0, points[|points| - 1].1).0
  }

  /** Of a touch only where it began and where it is now matter, until it is lifted or clicks. */
  lemma {:induction false} WholeTouch(c: Config, was: Option<Track>, x0: int, y0: int, points: seq<(int, int)>)
    ensures var (x, y) := if points == [] then (x0, y0) else points[|points| - 1];
            var track := FedAll(c, Fed(c, was, Press, x0, y0).0, points);
            && track.Some?
            && Direct(c, track) == Direct(c, Some(Track(x0, y0, x, y)))
            && (forall x1, y1 :: Fed(c, track, Release, x1, y1) == (None, Resolve(c, x0, y0, x1, y1)))
            && (forall x1, y1 :: Fed(c, track, TouchClick, x1, y1) == (None, [Select]))
  {
    TrackIs(c, was, x0, y0, points);
  }

  lemma {:induction false} TrackIs(c: Config, was: Option<Track>, x0: int, y0: int, points: seq<(int, int)>)
    ensures var (x, y) := if points == [] then (x0, y0) else points[|points| - 1];
            FedAll(c, Fed(c, was, Press, x0, y0).0, points) == Some(Track(x0, y0, x, y))
  {
    if points != [] {
      TrackIs(c, was, x0, y0, points[..|points| - 1]);
    }
  }

  class SwipeTranslator {
    const config: Config
    var track: Option<Track>

    constructor (config: Config)
      ensures this.config == config && track == None
    {
      this.config := config;
      track := None;
    }

    /** The direction of the gesture in progress. */
    function CurrentDirection(): Option<Direction>
      reads this
    {
      Direct(config, track)
    }

    method Feed(action: TouchAction, cx: int, cy: int) returns (gestures: seq<Gesture>)
      modifies this
      ensures (track, gestures) == Fed(config, old(track), action, cx, cy)
    {
      match action
      case Press =>
        track := Some(Track(cx, cy, cx, cy));
        return [];
      case Hold =>
        if track.Some? {
          track := Some(track.value.(lastX := cx, lastY := cy));
        }
        return [];
      case TouchClick =>
        track := None;
        return [Select];
      case Release =>
        if track.None? {
          return [];
        }
        var t := track.value;
        track := None;
        return Resolve(config, t.startX, t.startY, cx, cy);
      case Unknown =>
        return [];
    }
  }
}

module Relay {
  import opened Base
  import opened Remote
  import opened Gestures

  /** What the relay took in and handed on. */
  datatype Event =
    | Pressed
    | Sampled(at: real, direction: Option<Direction>)
    | Lifted
    | Touched(command: Command)      // handed on for a touch
    | Buttoned(command: Command)     // handed on for anything else

  type Log = seq<Event>

  function KeyFor(g: Gesture): string {
    match g
    case Swipe(d) => KeyOf(d)
    case Select => KEY_ENTER
  }

  function HoldCommand(d: Direction, phase: RepeatPhase): Command {
    Command(SendKey, Some(KeyOf(d)), None, Some(phase), phase == Start)
  }

  /** Discrete gestures as clicks, and when SELECT was last let through. */
  function Sounded(gs: seq<Gesture>, now: real, last: real, dedupeMs: real): (seq<Command>, real) {
    if gs == [] then ([], last)
    else
      var (sent, last) := Sounded(gs[..|gs| - 1], now, last, dedupeMs);
      var g := gs[|gs| - 1];
      if g == Select && now - last < dedupeMs then (sent, last)
      else (sent + [Click(KeyFor(g), false)], if g == Select then now else last)
  }

  /** The change of hold, then the discrete gestures unless they belong to a hold of the same press. */
  function Heard(was: Option<Direction>, hold: Option<Direction>, gs: seq<Gesture>, held: bool, suppressed: bool,
                 now: real, last: real, dedupeMs: real): (seq<Command>, real) {
    var (sent, last) := if held || (suppressed && gs == [Select]) then ([], last) else Sounded(gs, now, last, dedupeMs);
    (Change(was, hold) + sent, last)
  }

  // ---------------------------------------------------------------- the grammar of holds

  datatype Grammar = Idle | Holding(key: string) | Broken

  /** Starts and stops must alternate, each stop naming the key of the start before it. */
  function Parse(g: Grammar, e: Event): Grammar {
    match e
    case Touched(c) =>
      (match c.phase
       case None => g
       case Some(Start) => if g.Idle? && c.key.Some? then Holding(c.key.value) else Broken
       case Some(Stop) => if g.Holding? && c.key == Some(g.key) then Idle else Broken)
    case _ => g
  }

  function Parsed(log: Log): Grammar {
    if log == [] then Idle else Parse(Parsed(log[..|log| - 1]), log[|log| - 1])
  }

  function ParseAll(g: Grammar, cs: seq<Command>): Grammar {
    if cs == [] then g else Parse(ParseAll(g, cs[..|cs| - 1]), Touched(cs[|cs| - 1]))
  }

  function Expected(hold: Option<Direction>): Grammar {
    if hold.Some? then Holding(KeyOf(hold.value)) else Idle
  }

  /** The phased commands that take one hold to another. */
  function Change(was: Option<Direction>, hold: Option<Direction>): seq<Command> {
    if was == hold then []
    else (if was.Some? then [HoldCommand(was.value, Stop)] else []) + (if hold.Some? then [HoldCommand(hold.value, Start)] else [])
  }

  lemma {:induction false} DiscreteParses(g: Grammar, a: seq<Command>, b: seq<Command>)
    requires forall c | c in b :: c.phase == None
    ensures ParseAll(g, a + b) == ParseAll(g, a)
  {
    if b == [] {
      assert a + b == a;
    } else {
      var init := b[..|b| - 1];
      assert (a + b)[..|a + b| - 1] == a + init && (a + b)[|a + b| - 1] == b[|b| - 1];
      DiscreteParses(g, a, init);
    }
  }

  lemma SoundedNone(now: real, last: real, dedupeMs: real)
    ensures Sounded([], now, last, dedupeMs) == ([], last)
  {
  }

  lemma SoundedStep(gs: seq<Gesture>, i: nat, now: real, last: real, dedupeMs: real)
    requires i < |gs|
    ensures var (sent, l) := Sounded(gs[..i], now, last, dedupeMs);
            Sounded(gs[..i + 1], now, last, dedupeMs)
            == if gs[i] == Select && now - l < dedupeMs then (sent, l)
               else (sent + [Click(KeyFor(gs[i]), false)], if gs[i] == Select then now else l)
  {
    assert gs[..i + 1][..i] == gs[..i];
  }

  lemma {:induction false} SoundedIsDiscrete(gs: seq<Gesture>, now: real, last: real, dedupeMs: real)
    ensures forall c | c in Sounded(gs, now, last, dedupeMs).0 :: c.phase == None
  {
    if gs != [] {
      SoundedIsDiscrete(gs[..|gs| - 1], now, last, dedupeMs);
    }
  }

  lemma ChangeParses(was: Option<Direction>, hold: Option<Direction>)
    ensures ParseAll(Expected(was), Change(was, hold)) == Expected(hold)
  {
    if was != hold {
      var stops := if was.Some? then [HoldCommand(was.value, Stop)] else [];
      ParseAllGrows(Expected(was), [], HoldCommand(if was.Some? then was.value else Up, Stop));
      if hold.Some? {
        ParseAllGrows(Expected(was), stops, HoldCommand(hold.value, Start));
      } else {
        assert stops + [] == stops;
      }
    }
  }

  lemma ParseAllGrows(g: Grammar, cs: seq<Command>, c: Command)
    ensures ParseAll(g, cs + [c]) == Parse(ParseAll(g, cs), Touched(c))
  {
    assert (cs + [c])[..|cs|] == cs;
  }

  /** What a touch emits leads from the hold before it to the hold after it. */
  lemma HeardParses(was: Option<Direction>, hold: Option<Direction>, gs: seq<Gesture>, held: bool, suppressed: bool,
                    now: real, last: real, dedupeMs: real)
    ensures ParseAll(Expected(was), Heard(was, hold, gs, held, suppressed, now, last, dedupeMs).0) == Expected(hold)
  {
    ChangeParses(was, hold);
    SoundedIsDiscrete(gs, now, last, dedupeMs);
    var discrete := if held || (suppressed && gs == [Select]) then [] else Sounded(gs, now, last, dedupeMs).0;
    DiscreteParses(Expected(was), Change(was, hold), discrete);
  }

  lemma SoundedParses(g: Grammar, gs: seq<Gesture>, now: real, last: real, dedupeMs: real)
    ensures ParseAll(g, Sounded(gs, now, last, dedupeMs).0) == g
  {
    SoundedIsDiscrete(gs, now, last, dedupeMs);
    var sent := Sounded(gs, now, last, dedupeMs).0;
    DiscreteParses(g, [], sent);
    assert [] + sent == sent;
  }

  /** A broken sequence stays broken. */
  lemma {:induction false} PrefixParses(g: Grammar, cs: seq<Command>, i: nat)
    requires i <= |cs| && ParseAll(g, cs) != Broken
    ensures ParseAll(g, cs[..i]) != Broken
  {
    if i < |cs| {
      PrefixParses(g, cs[..|cs| - 1], i);
      assert cs[..|cs| - 1][..i] == cs[..i];
    } else {
      assert cs[..i] == cs;
    }
  }

  predicate SampledOnly(log: Log, d: Direction, i: nat) {
    forall k | i <= k < |log| :: log[k].Buttoned? || (log[k].Sampled? && log[k].direction == Some(d))
  }

  /** One unchanged direction, sampled at `since` and ever after. */
  ghost predicate Armed(log: Log, d: Direction, since: real) {
    exists i :: 0 <= i < |log| && log[i] == Sampled(since, Some(d)) && SampledOnly(log, d, i)
  }

  ghost predicate Dwelt(log: Log, d: Direction, dwell: real) {
    && log != [] && log[|log| - 1].Sampled?
    && exists since: real :: Armed(log, d, since) && log[|log| - 1].at - since >= dwell
  }

  predicate Starts(e: Event) {
    e.Touched? && e.command.phase == Some(Start)
  }

  predicate Discrete(e: Event) {
    e.Touched? && e.command.phase == None
  }

  /** A hold has started since the last press. */
  predicate Started(log: Log) {
    log != [] && var e := log[|log| - 1]; Starts(e) || (e != Pressed && Started(log[..|log| - 1]))
  }

  /** A start follows a dwell of its own direction; a discrete command follows no hold of the same press. */
  ghost predicate WellPlaced(before: Log, e: Event, activateMs: real) {
    && (Starts(e) ==> exists d: Direction :: e.command == HoldCommand(d, Start) && Dwelt(before, d, activateMs))
    && (Discrete(e) ==> !Started(before))
  }

  ghost predicate Grammatical(log: Log, activateMs: real) {
    && (forall j | 0 <= j < |log| :: WellPlaced(log[..j], log[j], activateMs))
    && Parsed(log) != Broken
  }

  lemma LogGrows(log: Log, e: Event, activateMs: real)
    requires Grammatical(log, activateMs) && WellPlaced(log, e, activateMs)
    requires Parsed(log) != Broken ==> Parse(Parsed(log), e) != Broken
    ensures Grammatical(log + [e], activateMs)
    ensures Parsed(log + [e]) == Parse(Parsed(log), e)
    ensures Started(log + [e]) <==> Starts(e) || (Started(log) && e != Pressed)
  {
    hide WellPlaced, Parse;
    var grown := log + [e];
    assert grown[..|log|] == log;
    forall j | 0 <= j < |grown| ensures WellPlaced(grown[..j], grown[j], activateMs) {
      if j < |log| {
        assert grown[..j] == log[..j];
      }
    }
  }

  lemma ArmedGrows(log: Log, e: Event, d: Direction, since: real)
    requires Armed(log, d, since) && (e.Buttoned? || (e.Sampled? && e.direction == Some(d)))
    ensures Armed(log + [e], d, since)
  {
    var i :| 0 <= i < |log| && log[i] == Sampled(since, Some(d)) && SampledOnly(log, d, i);
    assert (log + [e])[i] == Sampled(since, Some(d)) && SampledOnly(log + [e], d, i);
  }

  lemma ArmedNow(log: Log, d: Direction, now: real)
    ensures Armed(log + [Sampled(now, Some(d))], d, now)
  {
    var grown := log + [Sampled(now, Some(d))];
    assert grown[|log|] == Sampled(now, Some(d)) && SampledOnly(grown, d, |log|);
  }

  lemma DwellJustifiesStart(log: Log, d: Direction, since: real, now: real, activateMs: real)
    requires Armed(log, d, since) && log[|log| - 1] == Sampled(now, Some(d)) && now - since >= activateMs
    ensures WellPlaced(log, Touched(HoldCommand(d, Start)), activateMs)
  {
    assert Dwelt(log, d, activateMs);
  }

  /** The dwell state of one gesture. */
  datatype Dwell = Dwell(direction: Option<Direction>, since: real, active: bool, wasActive: bool, suppress: bool)

  /** The dwell state after a touch, `seen` being where the finger points then. */
  function Stepped(d: Dwell, activateMs: real, action: TouchAction, seen: Option<Direction>, now: real): Dwell {
    match action
    case Press => Dwell(None, 0.0, false, false, false)
    case Hold =>
      if seen != d.direction then d.(direction := seen, since := if seen.Some? then now else 0.0, active := false)
      else if seen.Some? && (d.active || now - d.since >= activateMs) then d.(active := true, wasActive := true)
      else d
    case Unknown => d
    case _ => Dwell(None, 0.0, false, false, d.suppress || d.wasActive)
  }

  function Repeating(d: Dwell): Option<Direction> {
    if d.active then d.direction else None
  }

  /** A hold only ever starts while the finger rests, and is then all that is heard. */
  lemma StartHeard(config: Gestures.Config, track: Option<Track>, d: Dwell, activateMs: real, action: TouchAction, cx: int, cy: int,
                   seen: Option<Direction>, now: real, last: real, dedupeMs: real)
    requires Repeating(d).None? && Repeating(Stepped(d, activateMs, action, seen, now)).Some?
    ensures var hold, gs := Repeating(Stepped(d, activateMs, action, seen, now)), Fed(config, track, action, cx, cy).1;
            Heard(None, hold, gs, d.wasActive, d.suppress, now, last, dedupeMs).0 == [HoldCommand(hold.value, Start)]
  {
    assert action == Hold;
  }

  function Touches(cs: seq<Command>): Log {
    seq(|cs|, i requires 0 <= i < |cs| => Touched(cs[i]))
  }

  lemma TouchesJoin(log: Log, a: seq<Command>, b: seq<Command>)
    ensures log + Touches(a) + Touches(b) == log + Touches(a + b)
    ensures Touches([]) == [] && log + [] == log && a + [] == a
    ensures forall c: Command :: Touches([c]) == [Touched(c)]
  {
  }

  /** What a touch adds to the log: a stop before the event that causes it, a start after its sample. */
  function Trace(enabled: bool, action: TouchAction, changed: bool, seen: Option<Direction>, now: real, sent: seq<Command>): Log {
    if !enabled then Touches(sent)
    else match action
      case Press => Touches(sent) + [Pressed]
      case Hold => if changed then Touches(sent) + [Sampled(now, seen)] else [Sampled(now, seen)] + Touches(sent)
      case Unknown => []
      case _ => Touches(sent) + [Lifted]
  }

  datatype HoldConfig = HoldConfig(enabled: bool, activateMs: real)

  class CommandRelay {
    const holdConfig: HoldConfig
    const dedupeMs: real
    const swipe: SwipeTranslator
    var lastSelectMs: real
    var holdDir: Option<Direction>
    var holdSinceMs: real
    var holdActive: bool
    var holdWasActive: bool
    var suppressClickUntilPress: bool
    ghost var log: Log

    ghost predicate Valid()
      reads this, swipe
    {
      && (holdActive ==> holdDir.Some? && holdWasActive)
      && (holdDir.Some? && !holdActive ==> Armed(log, holdDir.value, holdSinceMs))
      && (Started(log) ==> holdWasActive || (suppressClickUntilPress && swipe.track.None?))
      && (!holdConfig.enabled ==> !Started(log) && holdDir == None && !holdWasActive)
      && Parsed(log) == Expected(CurrentHold())
      && Grammatical(log, holdConfig.activateMs)
    }

    function State(): Dwell
      reads this
    {
      Dwell(holdDir, holdSinceMs, holdActive, holdWasActive, suppressClickUntilPress)
    }

    /** The direction now repeating. */
    function CurrentHold(): Option<Direction>
      reads this`holdActive, this`holdDir
    {
      if holdActive then holdDir else None
    }

    constructor (gestures: Gestures.Config, holdConfig: HoldConfig, dedupeMs: real)
      ensures Valid() && fresh(swipe) && CurrentHold() == None && log == []
      ensures this.holdConfig == holdConfig && this.dedupeMs == dedupeMs
    {
      this.holdConfig, this.dedupeMs := holdConfig, dedupeMs;
      swipe := new SwipeTranslator(gestures);
      lastSelectMs, holdDir, holdSinceMs, holdActive, holdWasActive := 0.0, None, 0.0, false, false;
      suppressClickUntilPress, log := false, [];
    }

    lemma NeverHolds()
      requires Valid() && !holdConfig.enabled
      ensures CurrentHold() == None
    {
    }

    /** Hand a command on, unless it is a second SELECT within the window. */
    method Emit(command: Command, now: real, ghost touch: bool) returns (sent: seq<Command>)
      modifies this`lastSelectMs, this`log
      ensures sent == [command] || (sent == [] && command.key == Some(KEY_ENTER) && now - old(lastSelectMs) < dedupeMs)
      ensures command.key == Some(KEY_ENTER) && now - old(lastSelectMs) < dedupeMs ==> sent == []
      ensures sent != [] && command.key == Some(KEY_ENTER) ==> lastSelectMs == now
      ensures !(sent != [] && command.key == Some(KEY_ENTER)) ==> lastSelectMs == old(lastSelectMs)
      ensures log == if sent == [] then old(log) else old(log) + [if touch then Touched(command) else Buttoned(command)]
    {
      if command.key == Some(KEY_ENTER) {
        if now - lastSelectMs < dedupeMs {
          return [];
        }
        lastSelectMs := now;
      }
      log := log + [if touch then Touched(command) else Buttoned(command)];
      return [command];
    }

    /** A command that no touch produced: a button, a volume step. */
    method EmitOther(command: Command, now: real) returns (sent: seq<Command>)
      requires Valid()
      modifies this`lastSelectMs, this`log
      ensures Valid() && (sent == [command] || sent == [])
      ensures sent == [] <==> command.key == Some(KEY_ENTER) && now - old(lastSelectMs) < dedupeMs
      ensures lastSelectMs == if sent != [] && command.key == Some(KEY_ENTER) then now else old(lastSelectMs)
      ensures log == if sent == [] then old(log) else old(log) + [Buttoned(command)]
    {
      hide Grammatical, Armed, Started, Parsed;
      LogGrows(log, Buttoned(command), holdConfig.activateMs);
      if holdDir.Some? && !holdActive {
        ArmedGrows(log, Buttoned(command), holdDir.value, holdSinceMs);
      }
      sent := Emit(command, now, false);
    }

    /** Buttons act once, on either representation of their release. */
    method OnButton(mapping: Option<Command>, state: int, now: real) returns (sent: seq<Command>)
      requires Valid()
      modifies this`lastSelectMs, this`log
      ensures Valid()
      ensures var fires := mapping.Some? && (state == 0 || state == 2)
                           && !(mapping.value.key == Some(KEY_ENTER) && now - old(lastSelectMs) < dedupeMs);
              sent == if fires then [mapping.value] else []
    {
      if (state != 0 && state != 2) || mapping.None? {
        return [];
      }
      sent := EmitOther(mapping.value, now);
    }

    method EmitGestures(gs: seq<Gesture>, now: real) returns (sent: seq<Command>)
      requires Grammatical(log, holdConfig.activateMs) && (gs != [] ==> !Started(log))
      modifies this`lastSelectMs, this`log
      ensures (sent, lastSelectMs) == Sounded(gs, now, old(lastSelectMs), dedupeMs)
      ensures forall c | c in sent :: c.phase == None
      ensures log == old(log) + Touches(sent)
      ensures Grammatical(log, holdConfig.activateMs) && Parsed(log) == old(Parsed(log)) && Started(log) == old(Started(log))
    {
      hide Grammatical, Parsed, Started, Sounded;
      sent := [];
      SoundedNone(now, lastSelectMs, dedupeMs);
      for i := 0 to |gs|
        invariant (sent, lastSelectMs) == Sounded(gs[..i], now, old(lastSelectMs), dedupeMs)
        invariant forall c | c in sent :: c.phase == None
        invariant log == old(log) + Touches(sent)
        invariant Grammatical(log, holdConfig.activateMs) && Parsed(log) == old(Parsed(log)) && Started(log) == old(Started(log))
      {
        SoundedStep(gs, i, now, old(lastSelectMs), dedupeMs);
        var command := Click(KeyFor(gs[i]), false);
        LogGrows(log, Touched(command), holdConfig.activateMs);
        var more := Emit(command, now, true);
        assert sent + [] == sent;
        sent := sent + more;
      }
      assert gs[..|gs|] == gs;
    }

    /** End the hold that is repeating, if any. */
    method EndHoldIfActive() returns (sent: seq<Command>)
      requires Grammatical(log, holdConfig.activateMs) && Parsed(log) == Expected(CurrentHold())
      requires holdActive ==> holdDir.Some?
      modifies this`holdActive, this`lastSelectMs, this`log
      ensures !holdActive && sent == Change(old(CurrentHold()), None) && lastSelectMs == old(lastSelectMs)
      ensures Grammatical(log, holdConfig.activateMs) && Parsed(log) == Idle && Started(log) == old(Started(log))
      ensures log == old(log) + Touches(sent)
    {
      hide Grammatical, Parsed, Started;
      sent := [];
      if holdActive {
        var command := HoldCommand(holdDir.value, Stop);
        LogGrows(log, Touched(command), holdConfig.activateMs);
        sent := Emit(command, 0.0, true);
      }
      holdActive := false;
    }

    method ResetHoldState()
      modifies this`holdDir, this`holdSinceMs, this`holdActive, this`holdWasActive
      ensures holdDir == None && holdSinceMs == 0.0 && !holdActive && !holdWasActive
    {
      holdDir, holdSinceMs, holdActive, holdWasActive := None, 0.0, false, false;
    }

    ghost method Record(e: Event)
      requires Grammatical(log, holdConfig.activateMs) && !e.Touched?
      modifies this`log
      ensures log == old(log) + [e]
      ensures Grammatical(log, holdConfig.activateMs) && Parsed(log) == old(Parsed(log))
      ensures Started(log) <==> old(Started(log)) && e != Pressed
    {
      hide Grammatical, Parsed, Started;
      LogGrows(log, e, holdConfig.activateMs);
      log := log + [e];
    }

    /** One touch point. What it emits is the change of hold, then whatever discrete gestures count. */
    method OnTouch(action: TouchAction, cx: int, cy: int, now: real) returns (sent: seq<Command>)
      requires Valid()
      modifies this, swipe
      ensures Valid()
      ensures swipe.track == Fed(swipe.config, old(swipe.track), action, cx, cy).0
      ensures !holdConfig.enabled ==>
                (sent, lastSelectMs) == Sounded(Fed(swipe.config, old(swipe.track), action, cx, cy).1, now, old(lastSelectMs), dedupeMs)
      ensures holdConfig.enabled ==>
                (sent, lastSelectMs) == Heard(old(CurrentHold()), CurrentHold(), Fed(swipe.config, old(swipe.track), action, cx, cy).1,
                                              old(holdWasActive), old(suppressClickUntilPress), now, old(lastSelectMs), dedupeMs)
      ensures State() == if holdConfig.enabled
                         then Stepped(old(State()), holdConfig.activateMs, action, swipe.CurrentDirection(), now) else old(State())
      ensures log == old(log) + Trace(holdConfig.enabled, action, swipe.CurrentDirection() != old(holdDir),
                                      swipe.CurrentDirection(), now, sent)
    {
      hide Grammatical, Parsed, Started;
      ghost var was := CurrentHold();
      sent := [];
      assert forall h :: Change(was, h) + [] == Change(was, h);
      if !holdConfig.enabled {
        var gestures := swipe.Feed(action, cx, cy);
        sent := EmitGestures(gestures, now);
        return;
      }
      match action
      case Press =>
        sent := EndHoldIfActive();
        ResetHoldState();
        suppressClickUntilPress := false;
        Record(Pressed);
        var _ := swipe.Feed(action, cx, cy);
      case Hold =>
        var _ := swipe.Feed(action, cx, cy);
        sent := UpdateHold(now);
      case Unknown =>
        var _ := swipe.Feed(action, cx, cy);
      case _ =>
        sent := LiftTouch(action, cx, cy, now);
    }

    /** A release or a click ends the hold; what it would have been as a swipe or tap is dropped if it
        was a hold, and so is a stray tap right after one. */
    method LiftTouch(action: TouchAction, cx: int, cy: int, now: real) returns (sent: seq<Command>)
      requires Valid() && holdConfig.enabled && action in {Release, TouchClick}
      modifies this, swipe
      ensures Valid() && State() == Dwell(None, 0.0, false, false, old(suppressClickUntilPress) || old(holdWasActive))
      ensures log == old(log) + Touches(sent) + [Lifted]
      ensures swipe.track == Fed(swipe.config, old(swipe.track), action, cx, cy).0
      ensures (sent, lastSelectMs) == Heard(old(CurrentHold()), None, Fed(swipe.config, old(swipe.track), action, cx, cy).1,
                                            old(holdWasActive), old(suppressClickUntilPress), now, old(lastSelectMs), dedupeMs)
    {
      hide Grammatical, Parsed, Started, Touches, Sounded;
      ghost var was := CurrentHold();
      assert Change(was, None) + [] == Change(was, None);
      sent := EndHoldIfActive();
      var gestures := swipe.Feed(action, cx, cy);
      if holdWasActive {
        suppressClickUntilPress := true;
      } else if !(suppressClickUntilPress && gestures == [Select]) {
        var discrete := EmitGestures(gestures, now);
        TouchesJoin(old(log), sent, discrete);
        sent := sent + discrete;
      }
      ResetHoldState();
      Record(Lifted);
    }

    /** Arm a direction, or start repeating it once it has dwelt long enough. */
    method UpdateHold(now: real) returns (sent: seq<Command>)
      requires Valid() && holdConfig.enabled && (Started(log) ==> holdWasActive || swipe.track.None?)
      modifies this
      ensures Valid() && sent == Change(old(CurrentHold()), CurrentHold())
      ensures State() == Stepped(old(State()), holdConfig.activateMs, Hold, swipe.CurrentDirection(), now)
      ensures lastSelectMs == old(lastSelectMs)
      ensures log == old(log) + Trace(true, Hold, swipe.CurrentDirection() != old(holdDir), swipe.CurrentDirection(), now, sent)
    {
      hide Touches, Grammatical, Parsed, Started, Armed, Trace;
      TouchesJoin(log, [], []);
      var d := swipe.CurrentDirection();
      if d != holdDir {
        sent := Rearm(d, now);
      } else {
        sent := KeepDwelling(now);
      }
      UpdateTrace(old(log), old(holdDir), d, now, sent);
    }

    /** The direction changed, or is lost: a repeating hold stops, and the dwell starts over. */
    method Rearm(d: Option<Direction>, now: real) returns (sent: seq<Command>)
      requires Valid() && holdConfig.enabled && d != holdDir && (Started(log) ==> holdWasActive || swipe.track.None?)
      modifies this
      ensures Valid() && sent == Change(old(CurrentHold()), None) && lastSelectMs == old(lastSelectMs)
      ensures State() == old(State()).(direction := d, since := if d.Some? then now else 0.0, active := false)
      ensures log == old(log) + Touches(sent) + [Sampled(now, d)]
    {
      hide Grammatical, Parsed, Started, Armed, WellPlaced, Touches;
      sent := EndHoldIfActive();
      holdDir := d;
      holdSinceMs := if d.Some? then now else 0.0;
      ghost var before := log;
      Record(Sampled(now, d));
      if d.Some? {
        ArmedNow(before, d.value, now);
      }
    }

    /** The direction is unchanged: once it has dwelt long enough, repeating starts. */
    method KeepDwelling(now: real) returns (sent: seq<Command>)
      requires Valid() && holdConfig.enabled && (Started(log) ==> holdWasActive || swipe.track.None?)
      modifies this
      ensures Valid() && lastSelectMs == old(lastSelectMs)
      ensures var starts := holdDir.Some? && !old(holdActive) && now - old(holdSinceMs) >= holdConfig.activateMs;
              && State() == old(State()).(active := old(holdActive) || starts, wasActive := old(holdWasActive) || starts)
              && sent == if starts then [HoldCommand(holdDir.value, Start)] else []
      ensures log == old(log) + [Sampled(now, holdDir)] + Touches(sent)
    {
      hide Grammatical, Parsed, Started, Armed, WellPlaced, Touches;
      sent := [];
      ghost var before := log;
      Record(Sampled(now, holdDir));
      TouchesJoin(log, [], []);
      if holdDir.Some? && !holdActive {
        var d := holdDir.value;
        ArmedGrows(before, Sampled(now, holdDir), d, holdSinceMs);
        if now - holdSinceMs >= holdConfig.activateMs {
          var command := HoldCommand(d, Start);
          DwellJustifiesStart(log, d, holdSinceMs, now, holdConfig.activateMs);
          LogGrows(log, Touched(command), holdConfig.activateMs);
          sent := Emit(command, now, true);
          holdActive, holdWasActive := true, true;
        }
      }
    }
  }

  lemma UpdateTrace(log: Log, was: Option<Direction>, d: Option<Direction>, now: real, sent: seq<Command>)
    ensures log + Trace(true, Hold, d != was, d, now, sent)
            == if d != was then log + Touches(sent) + [Sampled(now, d)] else log + [Sampled(now, d)] + Touches(sent)
  {
  }

  // ---------------------------------------------------------------- whole gestures

  function Clicks(gs: seq<Gesture>): seq<Command> {
    seq(|gs|, i requires 0 <= i < |gs| => Click(KeyFor(gs[i]), false))
  }

  lemma {:induction false} AllSounded(gs: seq<Gesture>, now: real, last: real, dedupeMs: real)
    requires Select in gs ==> |gs| == 1 && now - last >= dedupeMs
    ensures Sounded(gs, now, last, dedupeMs).0 == Clicks(gs)
  {
    if gs != [] {
      assert gs[|gs| - 1] in gs && Sounded([], now, last, dedupeMs) == ([], last);
      AllSounded(gs[..|gs| - 1], now, last, dedupeMs);
    }
  }

  /** A press and a release, wherever they are and whatever came before: the tap, or the swipe, is heard
      as it was made, unless it is a SELECT too soon after another. */
  method DiscreteGesture(relay: CommandRelay, x0: int, y0: int, x1: int, y1: int, pressed: real, released: real)
    returns (sent: seq<Command>)
    requires relay.Valid() && relay.swipe.config.maxRepeat >= 1
    requires released - relay.lastSelectMs >= relay.dedupeMs
    modifies relay, relay.swipe
    ensures relay.Valid() && relay.CurrentHold() == None
    ensures sent == Clicks(Resolve(relay.swipe.config, x0, y0, x1, y1))
  {
    hide CommandRelay.Valid, Sounded;
    var c := relay.swipe.config;
    SoundedNone(pressed, relay.lastSelectMs, relay.dedupeMs);
    var _ := relay.OnTouch(Press, x0, y0, pressed);
    ResolvesTo(c, x0, y0, x1, y1);
    AllSounded(Resolve(c, x0, y0, x1, y1), released, relay.lastSelectMs, relay.dedupeMs);
    sent := relay.OnTouch(Release, x1, y1, released);
    assert [] + sent == sent;
    if !relay.holdConfig.enabled {
      relay.NeverHolds();
    }
  }

  /** A swipe that is held: a start once it has pointed one way for long enough, a stop when it is lifted,
      nothing else, and no tap from lifting it. */
  method HeldGesture(relay: CommandRelay, x0: int, y0: int, x1: int, y1: int, x2: int, y2: int, x3: int, y3: int,
                     pressed: real, seen: real, held: real, lifted: real, d: Direction)
    returns (arming: seq<Command>, starting: seq<Command>, ending: seq<Command>, after: seq<Command>)
    requires relay.Valid() && relay.holdConfig.enabled
    requires Direct(relay.swipe.config, Some(Track(x0, y0, x1, y1))) == Some(d)
    requires Direct(relay.swipe.config, Some(Track(x0, y0, x2, y2))) == Some(d)
    requires held - seen >= relay.holdConfig.activateMs
    modifies relay, relay.swipe
    ensures relay.Valid() && relay.CurrentHold() == None
    ensures arming == [] && starting == [Command(SendKey, Some(KeyOf(d)), None, Some(Start), true)]
    ensures ending == [Command(SendKey, Some(KeyOf(d)), None, Some(Stop), false)] && after == []
  {
    hide CommandRelay.Valid;
    var _ := relay.OnTouch(Press, x0, y0, pressed);
    arming := relay.OnTouch(Hold, x1, y1, seen);
    starting := relay.OnTouch(Hold, x2, y2, held);
    ending := relay.OnTouch(Release, x3, y3, lifted);
    after := relay.OnTouch(TouchClick, x3, y3, lifted);
  }
}
