/**
 One Companion connection: the cleartext authentication exchange, then an AEAD session (section 2.8 of
 RFC 8439) whose nonces are two message counters. Sealing is symbolic: a sealed message opens exactly
 under the key, nonce and associated data it was made with.
 */
module Aead {
  import opened Base
  import Auth
  import opened Opack

  const NONCE_LENGTH: nat := 12

  datatype Sealed = Sealed(key: Auth.TransportKey, nonce: Bytes, aad: Bytes, plain: Bytes)

  datatype Trouble = CounterExhausted | InvalidTag

  function Pad(nonce: Bytes): Bytes {
    if |nonce| < NONCE_LENGTH then seq(NONCE_LENGTH - |nonce|, _ => 0) + nonce else nonce
  }

  /** The nonce of the counter's message; there is none once the counter no longer fits. */
  function CounterNonce(counter: nat, length: nat): (n: Option<Bytes>)
    ensures n.Some? <==> counter < Pow256(length)
  {
    if counter < Pow256(length) then Some(Pad(ToLe(counter, length))) else None
  }

  /** The counter can be read back from the nonce. */
  lemma NonceCounts(c: nat, length: nat)
    requires c < Pow256(length)
    ensures var n := CounterNonce(c, length).value; |n| >= length && FromLe(n[|n| - length..]) == c
  {
    LeRoundTrip(c, length);
    var n := Pad(ToLe(c, length));
    assert n[|n| - length..] == ToLe(c, length);
  }

  /** Different messages of one direction never share a nonce. */
  lemma NoncesDiffer(c: nat, d: nat, length: nat)
    requires c != d && c < Pow256(length) && d < Pow256(length)
    ensures CounterNonce(c, length) != CounterNonce(d, length)
  {
    NonceCounts(c, length);
    NonceCounts(d, length);
  }

  class Chacha20Cipher {
    const outKey: Auth.TransportKey
    const inKey: Auth.TransportKey
    const nonceLength: nat
    var outCounter: nat
    var inCounter: nat
    ghost var used: seq<Bytes>       // every implicit nonce sealed with, in order

    /** The i-th message sealed went out under the i-th nonce. */
    ghost predicate Valid()
      reads this
    {
      |used| == outCounter && forall i | 0 <= i < |used| :: Some(used[i]) == CounterNonce(i, nonceLength)
    }

    lemma NoNonceTwice(i: nat, j: nat)
      requires Valid() && i < j < |used|
      ensures used[i] != used[j]
    {
      assert Some(used[i]) == CounterNonce(i, nonceLength) && Some(used[j]) == CounterNonce(j, nonceLength);
      NoncesDiffer(i, j, nonceLength);
    }

    constructor (outKey: Auth.TransportKey, inKey: Auth.TransportKey, nonceLength: nat)
      ensures Valid() && outCounter == inCounter == 0 && used == []
      ensures this.outKey == outKey && this.inKey == inKey && this.nonceLength == nonceLength
    {
      this.outKey, this.inKey, this.nonceLength := outKey, inKey, nonceLength;
      outCounter, inCounter, used := 0, 0, [];
    }

    method Encrypt(data: Bytes, nonce: Option<Bytes>, aad: Bytes) returns (r: Result<Sealed, Trouble>)
      requires Valid()
      modifies this`outCounter, this`used
      ensures Valid()
      ensures nonce.Some? ==> outCounter == old(outCounter) && r == Ok(Sealed(outKey, Pad(nonce.value), aad, data))
      ensures nonce.None? ==>
                match CounterNonce(old(outCounter), nonceLength)
                case Some(n) => outCounter == old(outCounter) + 1 && r == Ok(Sealed(outKey, n, aad, data))
                case None => outCounter == old(outCounter) && r == Err(CounterExhausted)
    {
      if nonce.Some? {
        return Ok(Sealed(outKey, Pad(nonce.value), aad, data));
      }
      var n := CounterNonce(outCounter, nonceLength);
      if n.None? {
        return Err(CounterExhausted);
      }
      outCounter := outCounter + 1;
      used := used + [n.value];
      return Ok(Sealed(outKey, n.value, aad, data));
    }

    /** The receive counter moves on even when the message turns out not to open. */
    method Decrypt(message: Sealed, nonce: Option<Bytes>, aad: Bytes) returns (r: Result<Bytes, Trouble>)
      requires Valid()
      modifies this`inCounter
      ensures Valid()
      ensures nonce.Some? ==> inCounter == old(inCounter)
      ensures nonce.None? ==> inCounter == old(inCounter) + if CounterNonce(old(inCounter), nonceLength).Some? then 1 else 0
      ensures var n := if nonce.Some? then Some(Pad(nonce.value)) else CounterNonce(old(inCounter), nonceLength);
              r.Ok? <==> n.Some? && message.key == inKey && message.nonce == n.value && message.aad == aad
      ensures r.Ok? ==> r.value == message.plain
    {
      var n := if nonce.Some? then Some(Pad(nonce.value)) else CounterNonce(inCounter, nonceLength);
      if n.None? {
        return Err(CounterExhausted);
      }
      if nonce.None? {
        inCounter := inCounter + 1;
      }
      return if message.key == inKey && message.nonce == n.value && message.aad == aad then Ok(message.plain) else Err(InvalidTag);
    }
  }
}

module Connection {
  import opened Base
  import Auth
  import opened Aead
  import opened Opack
  import Framing

  const MALFORMED_FRAME_LIMIT := 3
  const TAG := 16

  datatype FrameType = AuthFrame(kind: Auth.Kind) | NoOp | EOpack | OtherFrame | UnknownFrame

  datatype Wire = Clear(bytes: Bytes) | Cipher(sealed: Sealed)

  function Size(w: Wire): nat {
    match w
    case Clear(bytes) => |bytes|
    case Cipher(sealed) => |sealed.plain| + TAG
  }

  datatype Inbound = Inbound(kind: FrameType, header: Bytes, payload: Wire)

  /** What the rest of the system makes of one frame. */
  datatype Context = Context(
    authorized: bool,                    // the verified client is still paired
    unpacks: bool,                       // the plain payload is decodable OPACK
    decoded: Option<Auth.Tlv>,           // and, for an auth frame, what its TLV says
    answers: Auth.Answers,
    handled: bool,                       // the message handler does not fail
    hangsUp: bool)                       // handling it leaves the transport closing

  class CompanionConnection {
    const auth: Auth.CompanionServerAuth
    var chacha: Chacha20Cipher?
    var open: bool                       // admitted, not closed, transport not closing
    var malformedFrames: nat
    ghost var installs: nat
    ghost var delivered: seq<Bytes>      // decrypted payloads, in order
    ghost var sent: seq<Sealed>          // sealed messages written to the transport, in order

    /** Encryption is on exactly when authentication has finished, and was turned on once. */
    ghost predicate Valid()
      reads this, auth, chacha
    {
      && auth.Coherent()
      && (chacha != null <==> auth.phase == Auth.Encrypted)
      && installs <= 1 && (open ==> installs == if chacha == null then 0 else 1)
      && (chacha != null ==> chacha.Valid() && CipherOfExchange())
      && (open && chacha == null ==> delivered == [] && sent == [])
    }

    /** The session's keys are those of the pair-verify exchange that encryption started with, and what
        was written is, message by message, what its counter says. */
    ghost predicate CipherOfExchange()
      requires chacha != null
      reads this, auth, chacha
    {
      && auth.transport == Some((chacha.outKey, chacha.inKey))
      && chacha.nonceLength == NONCE_LENGTH
      && |delivered| <= chacha.inCounter && (open ==> |delivered| == chacha.inCounter)
      && |sent| <= chacha.outCounter && (open ==> |sent| == chacha.outCounter)
      && forall i | 0 <= i < |sent| :: sent[i].key == chacha.outKey && Some(sent[i].nonce) == CounterNonce(i, NONCE_LENGTH)
    }

    constructor (requirePaired: bool)
      ensures Valid() && open && chacha == null && fresh(auth)
    {
      auth := new Auth.CompanionServerAuth(requirePaired);
      chacha, open, malformedFrames := null, true, 0;
      installs, delivered, sent := 0, [], [];
    }

    method CloseConnection()
      modifies this`open
      ensures !open
    {
      open := false;
    }

    /** The connection is gone: no key, cipher or pairing material outlives it. */
    method TeardownConnection()
      requires Valid()
      modifies this, auth
      ensures Valid() && !open && chacha == null && auth.phase == Auth.Closed && installs == old(installs)
      ensures auth.NoSetup() && auth.NoVerify() && auth.NoClient() && auth.transport.None?
    {
      open, chacha := false, null;
      auth.Reset(true);
    }

    /** A few malformed frames are tolerated. */
    method MalformedFrame() returns (keep: bool)
      requires open
      modifies this`malformedFrames, this`open
      ensures malformedFrames == old(malformedFrames) + 1
      ensures keep <==> malformedFrames < MALFORMED_FRAME_LIMIT
      ensures open == keep
    {
      malformedFrames := malformedFrames + 1;
      if malformedFrames >= MALFORMED_FRAME_LIMIT {
        CloseConnection();
        return false;
      }
      return true;
    }

    /** Seal, if encryption is on, and write behind a header that declares the size on the wire. An oversized
        message is dropped without using a nonce. */
    method SendToClient(kind: Byte, data: Bytes) returns (written: Option<(Bytes, Wire)>)
      requires Valid()
      modifies this`sent, if chacha == null then {} else {chacha}
      ensures Valid()
      ensures |data| > Framing.MAX_APPLICATION_PAYLOAD ==> written.None? && sent == old(sent)
      ensures chacha != null && |data| > Framing.MAX_APPLICATION_PAYLOAD ==> chacha.outCounter == old(chacha.outCounter)
      ensures written.Some? <==>
              && open && |data| <= Framing.MAX_APPLICATION_PAYLOAD
              && (chacha != null ==> old(chacha.outCounter) < Pow256(NONCE_LENGTH))
      ensures written.Some? ==>
                && |written.value.0| == Framing.HEADER && written.value.0[0] == kind
                && Framing.DeclaredSize(written.value.0) == Size(written.value.1)
      ensures chacha == null && written.Some? ==> written.value.1 == Clear(data) && sent == old(sent)
      ensures chacha != null && written.Some? ==>
                && written.value.1.Cipher? && sent == old(sent) + [written.value.1.sealed]
                && Some(written.value.1.sealed.nonce) == CounterNonce(|old(sent)|, NONCE_LENGTH)
                && written.value.1.sealed == Sealed(chacha.outKey, written.value.1.sealed.nonce, written.value.0, data)
      ensures chacha != null ==> chacha.inCounter == old(chacha.inCounter)
    {
      hide Framing.DeclaredSize, Framing.Header;
      if |data| > Framing.MAX_APPLICATION_PAYLOAD {
        return None;
      }
      var length := |data| + if chacha == null then 0 else TAG;
      var header := Framing.Header(kind, length);
      assert |header| == Framing.HEADER && header[0] == kind && Framing.DeclaredSize(header) == length by {
        HeaderIs(kind, length);
      }
      if chacha == null {
        return if open then Some((header, Clear(data))) else None;
      }
      var r := chacha.Encrypt(data, None, header);
      if r.Err? {
        return None;
      }
      if !open {
        return None;
      }
      sent := sent + [r.value];
      return Some((header, Cipher(r.value)));
    }

    lemma HeaderIs(kind: Byte, length: nat)
      requires length < Framing.LENGTH_LIMIT
      ensures var h := Framing.Header(kind, length); |h| == Framing.HEADER && h[0] == kind && Framing.DeclaredSize(h) == length
    {
      Framing.HeaderDeclares(kind, length, []);
      assert Framing.Header(kind, length) + [] == Framing.Header(kind, length);
    }

    /** Turn encryption on, with what pair-verify agreed; never a second time. */
    method EnableEncryption()
      requires auth.Coherent() && auth.phase == Auth.Encrypted && open
      requires chacha == null && installs == 0 && delivered == [] && sent == []
      modifies this`chacha, this`installs
      ensures Valid() && fresh(chacha) && installs == 1 && chacha.inCounter == chacha.outCounter == 0
    {
      assert auth.WellEncrypted(auth.history, auth.encryptedAt);
      var keys := auth.transport.value;
      chacha := new Chacha20Cipher(keys.0, keys.1, NONCE_LENGTH);
      installs := installs + 1;
    }

    /** The frame continues an exchange, and with good answers. */
    predicate AuthGoesOn(phase: Auth.Phase, history: seq<Auth.Step>, kind: Auth.Kind, c: Context) {
      var step := Auth.Step(Auth.Frame(kind, c.decoded), c.answers);
      && phase !in {Auth.Failed, Auth.Closed}
      && Auth.InPlace(history + [step]) && Auth.Good(auth.requirePaired, history, step)
    }

    method HandleAuth(kind: Auth.Kind, c: Context) returns (keep: bool)
      requires Valid() && open && chacha == null
      modifies this, auth
      ensures Valid() && keep == open && (chacha != null ==> fresh(chacha) && chacha.inCounter == 0)
      ensures delivered == old(delivered) && sent == old(sent)
      ensures keep <==> if c.unpacks then AuthGoesOn(old(auth.phase), old(auth.history), kind, c)
                        else old(malformedFrames) + 1 < MALFORMED_FRAME_LIMIT
      ensures c.unpacks && keep ==> auth.history == old(auth.history) + [Auth.Step(Auth.Frame(kind, c.decoded), c.answers)]
    {
      hide Auth.InPlace, Auth.Good;
      if !c.unpacks {
        keep := MalformedFrame();
        return;
      }
      var ok := auth.HandleAuthFrame(Auth.Frame(kind, c.decoded), c.answers);
      if !ok {
        CloseConnection();
        return false;
      }
      if auth.phase == Auth.Encrypted {
        EnableEncryption();
      }
      return true;
    }

    /** Deal with one whole frame; the answer is whether to go on reading. */
    method HandleFrame(frame: Inbound, c: Context) returns (keep: bool)
      requires Valid() && open
      modifies this, auth, if chacha == null then {} else {chacha}
      ensures Valid() && keep == open
      ensures old(chacha) != null ==> chacha == old(chacha) && auth.phase == Auth.Encrypted && installs == old(installs)
      ensures chacha != old(chacha) ==> fresh(chacha)
      ensures sent == old(sent)
      // When it goes on reading: three malformed frames are too many; an auth frame must continue its
      // exchange, and come before encryption; anything else must be sealed for this session, or an empty
      // keepalive, and its client still authorized.
      ensures keep <==>
              if frame.kind == UnknownFrame then old(malformedFrames) + 1 < MALFORMED_FRAME_LIMIT
              else if frame.kind.AuthFrame? then
                && old(chacha) == null && Size(frame.payload) <= Framing.MAX_APPLICATION_PAYLOAD
                && if c.unpacks then AuthGoesOn(old(auth.phase), old(auth.history), frame.kind.kind, c)
                   else old(malformedFrames) + 1 < MALFORMED_FRAME_LIMIT
              else if old(chacha) == null then
                Size(frame.payload) <= Framing.MAX_APPLICATION_PAYLOAD && old(malformedFrames) + 1 < MALFORMED_FRAME_LIMIT
              else MessageGoesOn(old(chacha), old(chacha.inCounter), old(malformedFrames), frame, c)
      // A cleartext auth frame after encryption ends the connection and touches nothing.
      ensures frame.kind.AuthFrame? && old(chacha) != null ==> !keep && chacha.inCounter == old(chacha.inCounter)
      ensures frame.kind.AuthFrame? && old(chacha) != null ==> auth.transport == old(auth.transport) && auth.history == old(auth.history)
      // An empty keepalive leaves the counters alone.
      ensures frame.kind == NoOp && frame.payload == Clear([]) && old(chacha) != null ==>
                chacha.inCounter == old(chacha.inCounter) && delivered == old(delivered) && keep == c.authorized
      // Any other frame of the session is opened with the next nonce, or ends the connection.
      ensures old(chacha) != null && !frame.kind.AuthFrame? && frame.kind != UnknownFrame && frame.payload.Cipher? && c.authorized ==>
                if Opens(old(chacha), old(chacha.inCounter), frame)
                then delivered == old(delivered) + [frame.payload.sealed.plain] && chacha.inCounter == old(chacha.inCounter) + 1
                else !keep && delivered == old(delivered)
      // Nothing but an opened frame is ever delivered, and only to an authorized client.
      ensures delivered != old(delivered) ==>
                && c.authorized && old(chacha) != null && frame.payload.Cipher? && Opens(old(chacha), old(chacha.inCounter), frame)
                && delivered == old(delivered) + [frame.payload.sealed.plain]
      ensures old(chacha) == null && !frame.kind.AuthFrame? && keep ==> malformedFrames > old(malformedFrames)
    {
      hide Auth.CompanionServerAuth.CoherentAs, Auth.CompanionServerAuth.OnCourse, Auth.Accepts, Chacha20Cipher.Valid, MessageGoesOn, AuthGoesOn;
      if frame.kind == UnknownFrame {
        keep := MalformedFrame();
        return;
      }
      if frame.kind.AuthFrame? && (chacha != null || auth.phase == Auth.Encrypted) {
        CloseConnection();
        return false;
      }
      if Size(frame.payload) > Framing.MAX_APPLICATION_PAYLOAD && (chacha == null || frame.kind.AuthFrame?) {
        CloseConnection();
        return false;
      }
      if frame.kind.AuthFrame? {
        keep := HandleAuth(frame.kind.kind, c);
        return;
      }
      if chacha == null {
        // Undecodable or not, a message before authentication is malformed.
        keep := MalformedFrame();
        return;
      }
      keep := HandleMessage(frame, c);
    }

    /** Open one sealed message with the next nonce, or end the connection. */
    method OpenMessage(frame: Inbound) returns (plain: Option<Bytes>)
      requires Valid() && open && chacha != null && frame.payload.Cipher?
      modifies this`open, this`delivered, chacha
      ensures Valid() && (open <==> plain.Some?)
      ensures plain == if Opens(chacha, old(chacha.inCounter), frame) then Some(frame.payload.sealed.plain) else None
      ensures plain.Some? ==> delivered == old(delivered) + [plain.value] && chacha.inCounter == old(chacha.inCounter) + 1
      ensures plain.None? ==> delivered == old(delivered)
    {
      hide Auth.CompanionServerAuth.Coherent, Chacha20Cipher.Valid, CounterNonce;
      var r := chacha.Decrypt(frame.payload.sealed, None, frame.header);
      if r.Err? {
        CloseConnection();
        return None;
      }
      delivered := delivered + [r.value];
      return Some(r.value);
    }

    method HandleMessage(frame: Inbound, c: Context) returns (keep: bool)
      requires Valid() && open && chacha != null && !frame.kind.AuthFrame? && frame.kind != UnknownFrame
      modifies this`open, this`malformedFrames, this`delivered, chacha
      ensures Valid() && keep == open
      ensures keep <==> MessageGoesOn(chacha, old(chacha.inCounter), old(malformedFrames), frame, c)
      ensures frame.kind == NoOp && frame.payload == Clear([]) ==>
                chacha.inCounter == old(chacha.inCounter) && delivered == old(delivered) && keep == c.authorized
      ensures frame.payload.Cipher? && c.authorized ==>
                if Opens(chacha, old(chacha.inCounter), frame)
                then delivered == old(delivered) + [frame.payload.sealed.plain] && chacha.inCounter == old(chacha.inCounter) + 1
                else !keep && delivered == old(delivered)
      ensures delivered != old(delivered) ==>
                && c.authorized && frame.payload.Cipher? && Opens(chacha, old(chacha.inCounter), frame)
                && delivered == old(delivered) + [frame.payload.sealed.plain]
    {
      hide Auth.CompanionServerAuth.Coherent, Chacha20Cipher.Valid, CounterNonce, Opens;
      if !c.authorized {
        CloseConnection();
        return false;
      }
      if frame.kind == NoOp && Size(frame.payload) == 0 {
        return true;
      }
      if frame.payload.Clear? {
        // Not a sealed message at all: it fails to open as any forgery does.
        CloseConnection();
        return false;
      }
      var plain := OpenMessage(frame);
      if plain.None? {
        return false;
      }
      if |plain.value| > Framing.MAX_APPLICATION_PAYLOAD {
        CloseConnection();
        return false;
      }
      if !c.unpacks || !c.handled {
        keep := MalformedFrame();
        return;
      }
      if c.hangsUp {
        CloseConnection();
      }
      return open;
    }

    /** A peer that numbers its messages and slips empty keepalives in between stays in step: whatever
        the interleaving, the receive counter is the number of messages and they arrive as sent. */
    method ReceiveFromPeer(fs: seq<PeerFrame>, contexts: nat -> Context) returns (handled: nat)
      requires Valid() && open && chacha != null && chacha.inCounter + |fs| <= Pow256(NONCE_LENGTH)
      requires (forall i: nat :: contexts(i).authorized) && forall f | f in fs :: Ordinary(f)
      modifies this, auth, chacha
      ensures Valid() && chacha == old(chacha)
      ensures handled <= |fs| && (open ==> handled == |fs|)
      ensures (forall i: nat :: Welcome(contexts(i))) && (forall f | f in fs :: Moderate(f)) ==> open
      ensures chacha.inCounter == old(chacha.inCounter) + |Messages(fs[..handled])|
      ensures delivered == old(delivered) + Messages(fs[..handled])
    {
      hide CompanionConnection.Valid, OnWire, Messages, Opens;
      MessagesStep(fs);
      handled := 0;
      ghost var before, counted := delivered, chacha.inCounter;
      ghost var cipher := chacha;
      PeerKeys();
      while handled < |fs|
        invariant Valid() && open && chacha == cipher && handled <= |fs|
        invariant chacha.inCounter == counted + |Messages(fs[..handled])| && delivered == before + Messages(fs[..handled])
        invariant |Messages(fs[..handled])| <= handled
        decreases |fs| - handled
      {
        var f := OnWire(fs[handled], chacha.inKey, chacha.inCounter);
        PeerKeys();
        assert fs[handled] in fs && Ordinary(fs[handled]);
        OnWireOpens(fs[handled], chacha, chacha.inCounter);
        var keep := HandleFrame(f, contexts(handled));
        handled := handled + 1;
        if !keep {
          return;
        }
      }
    }

    lemma PeerKeys()
      requires Valid() && chacha != null
      ensures chacha.nonceLength == NONCE_LENGTH
    {
    }
  }

  /** A frame of the session after which reading goes on, given how many malformed ones there have been. */
  predicate MessageGoesOn(cipher: Chacha20Cipher, counter: nat, malformed: nat, frame: Inbound, c: Context) {
    && c.authorized
    && (|| (frame.kind == NoOp && frame.payload == Clear([]))
        || (&& frame.payload.Cipher? && Opens(cipher, counter, frame) && |frame.payload.sealed.plain| <= Framing.MAX_APPLICATION_PAYLOAD
            && if c.unpacks && c.handled then !c.hangsUp else malformed + 1 < MALFORMED_FRAME_LIMIT))
  }

  /** Any frame type that is neither an auth frame nor unknown, a NoOp that says something included. */
  datatype PeerFrame = KeepAlive(header: Bytes) | Message(kind: FrameType, header: Bytes, plain: Bytes)

  predicate Ordinary(f: PeerFrame) {
    f.Message? ==> !f.kind.AuthFrame? && f.kind != UnknownFrame
  }

  /** What the connection has no reason to end over. */
  predicate Welcome(c: Context) { c.authorized && c.unpacks && c.handled && !c.hangsUp }

  predicate Moderate(f: PeerFrame) {
    f.Message? ==> |f.plain| <= Framing.MAX_APPLICATION_PAYLOAD
  }

  /** The peer seals each message under the counter it has reached. */
  function OnWire(f: PeerFrame, key: Auth.TransportKey, counter: nat): Inbound
    requires counter < Pow256(NONCE_LENGTH)
  {
    match f
    case KeepAlive(header) => Inbound(NoOp, header, Clear([]))
    case Message(kind, header, plain) => Inbound(kind, header, Cipher(Sealed(key, CounterNonce(counter, NONCE_LENGTH).value, header, plain)))
  }

  lemma OnWireOpens(f: PeerFrame, cipher: Chacha20Cipher, counter: nat)
    requires counter < Pow256(NONCE_LENGTH) && cipher.nonceLength == NONCE_LENGTH
    ensures var w := OnWire(f, cipher.inKey, counter);
            match f
            case KeepAlive(_) => w.kind == NoOp && w.payload == Clear([])
            case Message(kind, _, plain) => w.kind == kind && w.payload.Cipher? && w.payload.sealed.plain == plain && Opens(cipher, counter, w)
  {
  }

  lemma MessagesStep(fs: seq<PeerFrame>)
    ensures Messages(fs[..0]) == []
    ensures forall i | 0 <= i < |fs| ::
              Messages(fs[..i + 1]) == if fs[i].Message? then Messages(fs[..i]) + [fs[i].plain] else Messages(fs[..i])
  {
    forall i | 0 <= i < |fs| ensures fs[..i + 1][..i] == fs[..i] {
    }
  }

  function Messages(fs: seq<PeerFrame>): seq<Bytes> {
    if fs == [] then []
    else Messages(fs[..|fs| - 1]) + if fs[|fs| - 1].Message? then [fs[|fs| - 1].plain] else []
  }

  /** The message is sealed under the key, the next nonce and its own header. */
  predicate Opens(cipher: Chacha20Cipher, counter: nat, frame: Inbound)
    requires frame.payload.Cipher?
  {
    var s := frame.payload.sealed;
    s.key == cipher.inKey && Some(s.nonce) == CounterNonce(counter, cipher.nonceLength) && s.aad == frame.header
  }
}
