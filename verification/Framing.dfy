/** Companion frames on the wire: four header bytes, the last three a big-endian length, then the payload. */
module Framing {
  import opened Base

  const HEADER := 4
  const MAX_APPLICATION_PAYLOAD := 1_048_576
  const MAX_WIRE_PAYLOAD := MAX_APPLICATION_PAYLOAD + 16

  datatype Frame = Frame(header: Bytes, payload: Bytes)

  /** What a byte stream amounts to: whole frames, then an incomplete one, or the header of an
      oversized one directly behind them. */
  datatype Parsed = Parsed(frames: seq<Frame>, rest: Bytes, tooLarge: bool)

  function DeclaredSize(header: Bytes): nat
    requires |header| >= HEADER
  {
    var high: nat, middle: nat, low: nat := header[1], header[2], header[3];
    high * 65536 + middle * 256 + low
  }

  function FrameOf(one: Bytes): Frame
    requires |one| >= HEADER
  {
    Frame(one[..HEADER], one[HEADER..])
  }

  function Parse(stream: Bytes, max: nat): Parsed
    decreases |stream|
  {
    if |stream| < HEADER then Parsed([], stream, false)
    else if DeclaredSize(stream) > max then Parsed([], [], true)
    else if |stream| < HEADER + DeclaredSize(stream) then Parsed([], stream, false)
    else
      var size := HEADER + DeclaredSize(stream);
      Behind(FrameOf(stream[..size]), Parse(stream[size..], max))
  }

  function Behind(f: Frame, p: Parsed): Parsed {
    p.(frames := [f] + p.frames)
  }

  /** Reading on after `p`; past an oversized frame nothing more is read. */
  function Continue(p: Parsed, more: Bytes, max: nat): Parsed {
    if p.tooLarge then p
    else var q := Parse(p.rest + more, max); q.(frames := p.frames + q.frames)
  }

  predicate Complete(one: Bytes, max: nat) {
    |one| >= HEADER && DeclaredSize(one) <= max && |one| == HEADER + DeclaredSize(one)
  }

  lemma CompleteParses(one: Bytes, more: Bytes, max: nat)
    requires Complete(one, max)
    ensures Parse(one + more, max) == Behind(FrameOf(one), Parse(more, max))
  {
    var stream := one + more;
    assert DeclaredSize(stream) == DeclaredSize(one);
    assert stream[..|one|] == one && stream[|one|..] == more;
  }

  lemma OversizedParses(start: Bytes, more: Bytes, max: nat)
    requires |start| >= HEADER && DeclaredSize(start) > max
    ensures Parse(start + more, max) == Parsed([], [], true)
  {
    assert DeclaredSize(start + more) == DeclaredSize(start);
  }

  /** What is retained never amounts to a frame: it is the beginning of one that fits. */
  predicate Incomplete(rest: Bytes, max: nat) {
    |rest| < HEADER || (DeclaredSize(rest) <= max && |rest| < HEADER + DeclaredSize(rest))
  }

  lemma {:induction false} RestIsIncomplete(stream: Bytes, max: nat)
    ensures Incomplete(Parse(stream, max).rest, max) && |Parse(stream, max).rest| < HEADER + Max(max, 1)
    ensures |Parse(stream, max).rest| <= |stream|
    decreases |stream|
  {
    if |stream| >= HEADER && DeclaredSize(stream) <= max && |stream| >= HEADER + DeclaredSize(stream) {
      RestIsIncomplete(stream[HEADER + DeclaredSize(stream)..], max);
    }
  }

  lemma IncompleteParses(rest: Bytes, max: nat)
    requires Incomplete(rest, max)
    ensures Parse(rest, max) == Parsed([], rest, false)
  {
  }

  lemma FrameIsRead(frames: seq<Frame>, one: Bytes, more: Bytes, max: nat)
    requires Complete(one, max)
    ensures Continue(Parsed(frames, one, false), more, max) == Continue(Parsed(frames + [FrameOf(one)], [], false), more, max)
  {
    CompleteParses(one, more, max);
    assert [] + more == more;
  }

  /** Where a stream is cut does not matter: the frames, what is retained and the point of failure are
      those of reading it whole. */
  lemma {:induction false} CutAnywhere(a: Bytes, b: Bytes, max: nat)
    ensures Parse(a + b, max) == Continue(Parse(a, max), b, max)
    decreases |a|
  {
    hide Parse;
    if Incomplete(a, max) {
      IncompleteParses(a, max);
      assert [] + Parse(a + b, max).frames == Parse(a + b, max).frames;
    } else if DeclaredSize(a) > max {
      OversizedParses(a, b, max);
      OversizedParses(a, [], max);
      assert a + [] == a;
    } else {
      var size := HEADER + DeclaredSize(a);
      var one, more := a[..size], a[size..];
      assert DeclaredSize(one) == DeclaredSize(a) && a == one + more && a + b == one + (more + b);
      CompleteParses(one, more, max);
      CompleteParses(one, more + b, max);
      CutAnywhere(more, b, max);
    }
  }

  // ---------------------------------------------------------------- round trip

  predicate WellFormed(f: Frame, max: nat) {
    |f.header| == HEADER && DeclaredSize(f.header) == |f.payload| <= max
  }

  function Encode(f: Frame): Bytes {
    f.header + f.payload
  }

  function EncodeAll(fs: seq<Frame>): Bytes {
    if fs == [] then [] else Encode(fs[0]) + EncodeAll(fs[1..])
  }

  /** Well-formed frames sent back to back, empty payloads included, read back exactly. */
  lemma {:induction false} FramesReadBack(fs: seq<Frame>, rest: Bytes, max: nat)
    requires (forall f | f in fs :: WellFormed(f, max)) && Incomplete(rest, max)
    ensures Parse(EncodeAll(fs) + rest, max) == Parsed(fs, rest, false)
  {
    hide Parse;
    if fs == [] {
      IncompleteParses(rest, max);
      assert EncodeAll(fs) + rest == rest;
    } else {
      var f := fs[0];
      assert f in fs && WellFormed(f, max) && |Encode(f)| == HEADER + |f.payload|;
      assert DeclaredSize(Encode(f)) == DeclaredSize(f.header) && FrameOf(Encode(f)) == f;
      CompleteParses(Encode(f), EncodeAll(fs[1..]) + rest, max);
      FramesReadBack(fs[1..], rest, max);
      assert EncodeAll(fs) + rest == Encode(f) + (EncodeAll(fs[1..]) + rest);
      assert fs == [f] + fs[1..];
    }
  }

  // ---------------------------------------------------------------- what a sender writes

  const LENGTH_LIMIT := 0x1_00_00_00  // what three bytes can say

  /** The type byte, then the length as three bytes, most significant first. */
  function Header(kind: Byte, length: nat): (header: Bytes)
    requires length < LENGTH_LIMIT
  {
    [kind, length / 0x1_00_00, length / 0x1_00 % 0x1_00, length % 0x1_00]
  }

  datatype Message = Message(kind: Byte, payload: Bytes)

  predicate Fits(m: Message, max: nat) {
    |m.payload| < LENGTH_LIMIT && |m.payload| <= max
  }

  predicate AllFit(ms: seq<Message>, max: nat) {
    forall m | m in ms :: |m.payload| < LENGTH_LIMIT && |m.payload| <= max
  }

  function Written(m: Message): Bytes
    requires |m.payload| < LENGTH_LIMIT
  {
    Header(m.kind, |m.payload|) + m.payload
  }

  function WrittenAll(ms: seq<Message>): Bytes
    requires forall m | m in ms :: |m.payload| < LENGTH_LIMIT
  {
    if ms == [] then [] else Written(ms[0]) + WrittenAll(ms[1..])
  }

  function Received(ms: seq<Message>): (fs: seq<Frame>)
    requires forall m | m in ms :: |m.payload| < LENGTH_LIMIT
  {
    seq(|ms|, i requires 0 <= i < |ms| => Frame(Header(ms[i].kind, |ms[i].payload|), ms[i].payload))
  }

  lemma HeaderDeclares(kind: Byte, length: nat, more: Bytes)
    requires length < LENGTH_LIMIT
    ensures DeclaredSize(Header(kind, length) + more) == length
  {
    assert length == length / 0x1_00 * 0x1_00 + length % 0x1_00;
    assert length / 0x1_00 == length / 0x1_00 / 0x1_00 * 0x1_00 + length / 0x1_00 % 0x1_00;
    assert length / 0x1_00 / 0x1_00 == length / 0x1_00_00;
  }

  lemma {:induction false} WrittenIsEncoded(ms: seq<Message>)
    requires forall m | m in ms :: |m.payload| < LENGTH_LIMIT
    ensures WrittenAll(ms) == EncodeAll(Received(ms))
  {
    if ms != [] {
      WrittenIsEncoded(ms[1..]);
      assert Received(ms)[1..] == Received(ms[1..]);
    }
  }

  /** What a sender writes is read as the frames it meant, and of a frame written in part that part is
      retained. */
  lemma WrittenIsRead(ms: seq<Message>, next: Message, cut: nat, max: nat)
    requires AllFit(ms, max) && Fits(next, max) && cut < |Written(next)|
    ensures Parse(WrittenAll(ms) + Written(next)[..cut], max) == Parsed(Received(ms), Written(next)[..cut], false)
  {
    hide Parse, EncodeAll, Header;
    var rest := Written(next)[..cut];
    HeaderIsFour();
    if cut >= HEADER {
      assert rest == Header(next.kind, |next.payload|) + next.payload[..cut - HEADER];
      HeaderDeclares(next.kind, |next.payload|, next.payload[..cut - HEADER]);
    }
    forall f | f in Received(ms) ensures WellFormed(f, max) {
      var i :| 0 <= i < |ms| && Received(ms)[i] == f;
      assert ms[i] in ms && f.header + [] == f.header;
      HeaderDeclares(ms[i].kind, |ms[i].payload|, []);
    }
    WrittenIsEncoded(ms);
    FramesReadBack(Received(ms), rest, max);
  }

  lemma HeaderIsFour()
    ensures forall kind: Byte, length: nat | length < LENGTH_LIMIT :: |Header(kind, length)| == HEADER
  {
  }

  /** A frame that declares too much is refused by its header alone, behind whatever was read before. */
  lemma OversizedIsRefused(ms: seq<Message>, kind: Byte, length: nat, more: Bytes, max: nat)
    requires AllFit(ms, max) && max < length < LENGTH_LIMIT
    ensures Parse(WrittenAll(ms) + (Header(kind, length) + more), max) == Parsed(Received(ms), [], true)
  {
    hide Parse, Header;
    HeaderIsFour();
    var oversized, none := Header(kind, length) + more, Message(kind, []);
    HeaderDeclares(kind, length, more);
    OversizedParses(oversized, [], max);
    assert oversized + [] == oversized;
    WrittenIsRead(ms, none, 0, max);
    assert WrittenAll(ms) + Written(none)[..0] == WrittenAll(ms);
    CutAnywhere(WrittenAll(ms), oversized, max);
    assert Written(none)[..0] + oversized == oversized && Received(ms) + [] == Received(ms);
  }

  function Joined(chunks: seq<Bytes>): Bytes {
    if chunks == [] then [] else Joined(chunks[..|chunks| - 1]) + chunks[|chunks| - 1]
  }

  lemma SameDeclaredSize(start: Bytes, longer: Bytes)
    requires HEADER <= |start| <= |longer| && longer[..|start|] == start
    ensures DeclaredSize(longer) == DeclaredSize(start)
  {
    assert forall i | 0 <= i < HEADER :: longer[i] == longer[..|start|][i];
  }

  class FrameParser {
    const maxPayload: nat
    var buffer: Bytes
    var frameSize: Option<nat>

    /** At rest the buffer is a proper beginning of one bounded frame. */
    ghost predicate Valid()
      reads this
    {
      && Incomplete(buffer, maxPayload)
      && frameSize == if |buffer| < HEADER then None else Some(HEADER + DeclaredSize(buffer))
    }

    constructor (maxPayload: nat)
      ensures Valid() && buffer == [] && this.maxPayload == maxPayload
    {
      this.maxPayload, buffer, frameSize := maxPayload, [], None;
    }

    method Clear()
      modifies this
      ensures Valid() && buffer == []
    {
      buffer, frameSize := [], None;
    }

    /** Move bytes over until the buffer has `target` of them or the input is used up. */
    method Take(incoming: Bytes, position: nat, target: nat) returns (next: nat)
      requires position <= |incoming| && |buffer| <= target
      modifies this`buffer
      ensures position <= next <= |incoming| && buffer == old(buffer) + incoming[position..next]
      ensures |buffer| == target || (next == |incoming| && |buffer| < target)
    {
      var missing := target - |buffer|;
      var take := Min(missing, |incoming| - position);
      if take != 0 {
        buffer := buffer + incoming[position..position + take];
      }
      return position + take;
    }

    method Feed(data: Bytes) returns (frames: seq<Frame>, tooLarge: bool)
      requires Valid()
      modifies this
      ensures Valid()
      ensures var p := Parse(old(buffer) + data, maxPayload);
              frames == p.frames && tooLarge == p.tooLarge && buffer == p.rest
    {
      hide Parse, DeclaredSize;
      frames, tooLarge := [], false;
      var position := 0;
      ghost var whole := Parse(buffer + data, maxPayload);
      assert data[0..] == data;
      while position < |data|
        invariant position <= |data| && Valid()
        invariant whole == Continue(Parsed(frames, buffer, false), data[position..], maxPayload)
        decreases |data| - position
      {
        ghost var behind := buffer + data[position..];
        if frameSize.None? {
          position := Take(data, position, HEADER);
          assert buffer + data[position..] == behind;
          if |buffer| < HEADER {
            break;
          }
          var payloadSize := DeclaredSize(buffer);
          if payloadSize > maxPayload {
            OversizedParses(buffer, data[position..], maxPayload);
            Clear();
            return frames, true;
          }
          frameSize := Some(HEADER + payloadSize);
        }
        ghost var start := buffer;
        position := Take(data, position, frameSize.value);
        assert buffer + data[position..] == behind;
        SameDeclaredSize(start, buffer);
        if |buffer| < frameSize.value {
          break;
        }
        var frame := buffer;
        FrameIsRead(frames, frame, data[position..], maxPayload);
        Clear();
        frames := frames + [Frame(frame[..HEADER], frame[HEADER..])];
      }
      assert data[position..] == [] && buffer + [] == buffer;
      IncompleteParses(buffer, maxPayload);
    }

    /** Whatever pieces the network makes of what a sender wrote, the receiver gets its messages, and of
        the last one retains what has arrived. */
    method Receive(chunks: seq<Bytes>, ghost ms: seq<Message>, ghost next: Message, ghost cut: nat)
      returns (frames: seq<Frame>, tooLarge: bool)
      requires Valid() && buffer == []
      requires AllFit(ms, maxPayload) && Fits(next, maxPayload) && cut < |Written(next)|
      requires Joined(chunks) == WrittenAll(ms) + Written(next)[..cut]
      modifies this
      ensures Valid() && !tooLarge && buffer == Written(next)[..cut]
      ensures |frames| == |ms|
      ensures forall i | 0 <= i < |ms| :: frames[i] == Frame(Header(ms[i].kind, |ms[i].payload|), ms[i].payload)
    {
      hide Parse;
      assert [] + Joined(chunks) == Joined(chunks);
      WrittenIsRead(ms, next, cut, maxPayload);
      frames, tooLarge := FeedEach(chunks);
    }

    /** Feeding a stream in any pieces, up to an oversized frame, is feeding it whole. */
    method FeedEach(chunks: seq<Bytes>) returns (frames: seq<Frame>, tooLarge: bool)
      requires Valid()
      modifies this
      ensures Valid()
      ensures var p := Parse(old(buffer) + Joined(chunks), maxPayload);
              frames == p.frames && tooLarge == p.tooLarge && (!tooLarge ==> buffer == p.rest)
    {
      hide Parse;
      frames, tooLarge := [], false;
      ghost var before := buffer;
      IncompleteParses(buffer, maxPayload);
      assert before + Joined(chunks[..0]) == before;
      for i := 0 to |chunks|
        invariant Valid()
        invariant var p := Parse(before + Joined(chunks[..i]), maxPayload);
                  frames == p.frames && tooLarge == p.tooLarge && (!tooLarge ==> buffer == p.rest)
      {
        ghost var so := before + Joined(chunks[..i]);
        assert chunks[..i + 1][..i] == chunks[..i];
        assert before + Joined(chunks[..i + 1]) == so + chunks[i];
        CutAnywhere(so, chunks[i], maxPayload);
        if !tooLarge {
          var more, bad := Feed(chunks[i]);
          frames, tooLarge := frames + more, bad;
        }
      }
      assert chunks[..|chunks|] == chunks;
    }
  }
}
