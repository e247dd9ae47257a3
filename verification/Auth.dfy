/**
 Pair-setup and pair-verify on one connection (HomeKit Accessory Protocol Specification R2, sections
 5.6 and 5.7). Cryptography is symbolic: a shared secret is the pair of ephemeral keys it came from,
 and a sealed message opens only under the secret it was sealed with.
 */
module Auth {
  import opened Base

  datatype Phase = Idle | SetupM3 | SetupM5 | SetupComplete | VerifyM3 | Encrypted | Failed | Closed

  datatype Kind = PsStart | PsNext | PvStart | PvNext

  type EphemeralKey = nat

  datatype Secret = Secret(server: EphemeralKey, client: EphemeralKey)

  datatype TransportKey = ServerEncrypt(secret: Secret) | ClientEncrypt(secret: Secret)

  /** A controller's claim: who it is, and what was signed by which long-term key. */
  datatype Proof = Proof(identifier: string, signer: string, signedClient: EphemeralKey, signedIdentifier: string, signedServer: EphemeralKey)

  /** An encrypted field; no contents means it does not parse once opened. */
  datatype Sealed = Sealed(under: Secret, contents: Option<Proof>)

  datatype Tlv = Tlv(seqno: nat, publicKey: Option<EphemeralKey>, sealed: Option<Sealed>)

  /** An auth frame; nothing decoded means no mapping, no TLV bytes or no one-byte sequence number. */
  datatype Frame = Frame(kind: Kind, decoded: Option<Tlv>)

  datatype Window = Window(pin: string, expiresAt: int, generation: string)

  datatype Enrollment = Stored | Unreadable | NotAuthentic | NoRoom

  /** What the rest of the system answers while one frame is handled. */
  datatype Answers = Answers(
    resetPending: bool,                    // either recovery marker is there
    admitted: bool,                        // the attempt limiter takes this M1
    throttled: bool,                       // the failure limiter asks to wait
    window: Option<Window>,                // the active window bound to this server
    session: Option<nat>,                  // a fresh SRP session, unless making one fails
    srpProof: Option<bool>,                // how M3's proof checks, unless checking fails
    enrollment: Enrollment,                // what became of M5's client
    ephemeral: EphemeralKey,               // this exchange's own X25519 key
    ltpkOf: map<string, string>,           // the paired clients
    sendFails: bool)

  datatype Handler = M1Setup | M3Setup | M5Setup | M1Verify | M3Verify

  datatype Handled = Completed | Refused | Raised

  function NextTransition(phase: Phase, kind: Kind, seqno: nat): Option<(Handler, Phase)> {
    match (phase, kind)
    case (Idle, PsStart) => if seqno == 1 then Some((M1Setup, SetupM3)) else None
    case (Idle, PvStart) => if seqno == 1 then Some((M1Verify, VerifyM3)) else None
    case (SetupM3, PsNext) => if seqno == 3 then Some((M3Setup, SetupM5)) else None
    case (SetupM5, PsNext) => if seqno == 5 then Some((M5Setup, SetupComplete)) else None
    case (SetupComplete, PvStart) => if seqno == 1 then Some((M1Verify, VerifyM3)) else None
    case (VerifyM3, PvNext) => if seqno == 3 then Some((M3Verify, Encrypted)) else None
    case (VerifyM3, PsStart) => if seqno == 1 then Some((M1Setup, SetupM3)) else None
    case _ => None
  }

  /** One frame as it was handled. */
  datatype Step = Step(frame: Frame, answers: Answers)

  // ---------------------------------------------------------------- the exchanges, whole

  function Message(s: Step): Option<(Kind, nat)> {
    if s.frame.decoded.None? then None else Some((s.frame.kind, s.frame.decoded.value.seqno))
  }

  /** Setup M1, M3 and M5, and the verify M1 that follows enrolment on the same connection. */
  const ROUND := [Some((PsStart, 1)), Some((PsNext, 3)), Some((PsNext, 5)), Some((PvStart, 1))]

  /** The frames are setup rounds, after a first verify M1 if there is a probe; a verify M3 may come where
      a verify M1 came just before, and is the last. */
  predicate RunsAs(h: seq<Step>, probe: bool) {
    var d := if probe then 1 else 0;
    && (probe && h != [] ==> Message(h[0]) == ROUND[3])
    && forall i | d <= i < |h| ::
         || Message(h[i]) == ROUND[(i - d) % 4]
         || (i == |h| - 1 && i > 0 && (i - d) % 4 == 0 && Message(h[i]) == Some((PvNext, 3)))
  }

  predicate InPlace(h: seq<Step>) {
    RunsAs(h, false) || RunsAs(h, true)
  }

  /** The phase a connection is in after these frames. */
  function Reached(h: seq<Step>): Phase {
    if h == [] then Idle
    else match Message(h[|h| - 1])
      case Some((PsStart, _)) => SetupM3
      case Some((PsNext, n)) => if n == 3 then SetupM5 else SetupComplete
      case Some((PvStart, _)) => VerifyM3
      case Some((PvNext, _)) => Encrypted
      case None => Failed
  }

  /** The table of transitions lets in exactly what continues an exchange. */
  lemma TransitionContinues(h: seq<Step>, s: Step)
    requires InPlace(h) && s.frame.decoded.Some?
    ensures var t := NextTransition(Reached(h), s.frame.kind, s.frame.decoded.value.seqno);
            && (t.Some? <==> InPlace(h + [s]))
            && (t.Some? ==> t.value.1 == Reached(h + [s]))
  {
    var g := h + [s];
    assert forall i | 0 <= i < |h| :: g[i] == h[i];
    assert g[|h|] == s;
    if h != [] {
      forall probe | RunsAs(g, probe) ensures RunsAs(h, probe) {
        Beginning(h, s, probe);
      }
      forall probe | RunsAs(h, probe) ensures var t := NextTransition(Reached(h), s.frame.kind, s.frame.decoded.value.seqno);
                                              (t.Some? <==> RunsAs(g, probe)) && (t.Some? ==> t.value.1 == Reached(g))
      {
        PlacedIff(h, s, probe);
      }
    }
  }

  lemma UnreadIsOut(h: seq<Step>, s: Step)
    requires s.frame.decoded.None?
    ensures !InPlace(h + [s])
  {
    assert (h + [s])[|h|] == s;
  }

  lemma Beginning(h: seq<Step>, s: Step, probe: bool)
    requires RunsAs(h + [s], probe)
    ensures RunsAs(h, probe)
  {
    var g := h + [s];
    assert h != [] ==> g[0] == h[0];
    forall i | 0 <= i < |h| ensures g[i] == h[i] {
    }
  }

  lemma RunsOn(h: seq<Step>, s: Step, probe: bool)
    requires RunsAs(h, probe) && h != []
    ensures var n, d := |h|, if probe then 1 else 0;
            RunsAs(h + [s], probe) <==>
            && (n - 1 >= d ==> Message(h[n - 1]) == ROUND[(n - 1 - d) % 4])
            && (Message(s) == ROUND[(n - d) % 4] || ((n - d) % 4 == 0 && Message(s) == Some((PvNext, 3))))
  {
    var g, d, n := h + [s], if probe then 1 else 0, |h|;
    assert g[n] == s && g[n - 1] == h[n - 1];
    if && (n - 1 >= d ==> Message(h[n - 1]) == ROUND[(n - 1 - d) % 4])
       && (Message(s) == ROUND[(n - d) % 4] || ((n - d) % 4 == 0 && Message(s) == Some((PvNext, 3))))
    {
      forall i | d <= i < n ensures Message(g[i]) == ROUND[(i - d) % 4] {
        assert g[i] == h[i];
      }
      assert g[0] == h[0];
    }
  }

  lemma PlacedIff(h: seq<Step>, s: Step, probe: bool)
    requires RunsAs(h, probe) && s.frame.decoded.Some? && h != []
    ensures var t := NextTransition(Reached(h), s.frame.kind, s.frame.decoded.value.seqno);
            && (t.Some? <==> RunsAs(h + [s], probe))
            && (t.Some? ==> t.value.1 == Reached(h + [s]))
  {
    hide RunsAs;
    var n, d := |h|, if probe then 1 else 0;
    RunsOn(h, s, probe);
    LastOf(h, probe);
    assert (h + [s])[n] == s;
  }

  lemma LastOf(h: seq<Step>, probe: bool)
    requires RunsAs(h, probe) && h != []
    ensures var n, d := |h|, if probe then 1 else 0;
            if n - 1 < d then Message(h[n - 1]) == ROUND[3] && (n - d) % 4 == 0
            else
              || (Message(h[n - 1]) == ROUND[(n - 1 - d) % 4] && (n - d) % 4 == ((n - 1 - d) % 4 + 1) % 4)
              || Message(h[n - 1]) == Some((PvNext, 3))
  {
  }

  /** The rest of the system says yes to this frame after those: the limiters, the window and its SRP
      session for a setup M1; the same window and the proof for M3, and the client stored for M5; a key
      for a verify M1, and for its M3 a proof over the keys of the M1 before it. */
  predicate Good(requirePaired: bool, h: seq<Step>, s: Step)
    requires InPlace(h + [s])
  {
    var a := s.answers;
    assert (h + [s])[|h|] == s;
    && !a.sendFails
    && match Message(s)
       case Some((PsStart, _)) => a.admitted && !a.resetPending && !a.throttled && a.window.Some? && a.session.Some?
       case Some((PsNext, 3)) => |h| >= 1 && a.window.Some? && a.window == h[|h| - 1].answers.window && a.srpProof == Some(true)
       case Some((PsNext, _)) => |h| >= 2 && a.window.Some? && a.window == h[|h| - 2].answers.window && a.enrollment == Stored
       case Some((PvStart, _)) => !a.resetPending && s.frame.decoded.value.publicKey.Some?
       case Some((PvNext, _)) =>
         requirePaired ==>
           && |h| >= 1 && h[|h| - 1].frame.decoded.Some? && h[|h| - 1].frame.decoded.value.publicKey.Some?
           && var secret := Secret(h[|h| - 1].answers.ephemeral, h[|h| - 1].frame.decoded.value.publicKey.value);
              Checks(s.frame.decoded.value.sealed, secret, a.ltpkOf)
       case None => false
  }

  function Steps(frames: seq<Frame>, answers: nat -> Answers): (r: seq<Step>)
    ensures |r| == |frames| && forall i | 0 <= i < |frames| :: r[i] == Step(frames[i], answers(i))
  {
    seq(|frames|, i requires 0 <= i < |frames| => Step(frames[i], answers(i)))
  }

  /** Each of the frames so far continued an exchange, with good answers. */
  predicate AllGood(requirePaired: bool, h: seq<Step>) {
    forall n | 0 <= n < |h| :: InPlace(h[..n] + [h[n]]) && Good(requirePaired, h[..n], h[n])
  }

  lemma NothingYet(requirePaired: bool)
    ensures AllGood(requirePaired, [])
  {
  }

  lemma GoodGrows(requirePaired: bool, h: seq<Step>, s: Step)
    ensures AllGood(requirePaired, h + [s]) <==> AllGood(requirePaired, h) && InPlace(h + [s]) && Good(requirePaired, h, s)
  {
    hide InPlace, Good;
    var g := h + [s];
    assert g[..|h|] == h && g[|h|] == s;
    assert forall n | 0 <= n < |h| :: g[..n] == h[..n] && g[n] == h[n];
  }

  /** The exchanges the connection is there for: enrolment and then verification, verification alone, and
      a verification given up for enrolment. */
  lemma Exchanges(h: seq<Step>)
    ensures (|h| == 5 && forall i | 0 <= i < 5 :: Message(h[i]) == [Some((PsStart, 1)), Some((PsNext, 3)), Some((PsNext, 5)),
                                                                   Some((PvStart, 1)), Some((PvNext, 3))][i])
              ==> InPlace(h) && Reached(h) == Encrypted
    ensures (|h| == 2 && Message(h[0]) == Some((PvStart, 1)) && Message(h[1]) == Some((PvNext, 3)))
              ==> InPlace(h) && Reached(h) == Encrypted
    ensures (|h| == 2 && Message(h[0]) == Some((PvStart, 1)) && Message(h[1]) == Some((PsStart, 1)))
              ==> InPlace(h) && Reached(h) == SetupM3
  {
    hide Message;
    if |h| == 5 {
      assert h[0] == h[..1][0];
    }
  }

  // ---------------------------------------------------------------- what one frame needs

  /** `s` is a pair-verify M1 that offers client key `c` and draws server key `e`. */
  predicate OpensExchange(s: Step, e: EphemeralKey, c: EphemeralKey) {
    && s.frame.kind == PvStart && s.frame.decoded.Some?
    && s.frame.decoded.value.seqno == 1 && s.frame.decoded.value.publicKey == Some(c)
    && s.answers.ephemeral == e && !s.answers.resetPending
  }

  /** `s` is a pair-verify M3. */
  predicate ClosesExchange(s: Step) {
    s.frame.kind == PvNext && s.frame.decoded.Some? && s.frame.decoded.value.seqno == 3
  }

  /** The M3's proof was sealed under this exchange's secret and signed, over both of its ephemeral
      keys and the identifier, by the key the store holds for that identifier. */
  predicate Proves(s: Step, secret: Secret, identifier: string, ltpk: string) {
    && s.frame.decoded.Some? && s.frame.decoded.value.sealed.Some?
    && s.frame.decoded.value.sealed.value.under == secret
    && s.frame.decoded.value.sealed.value.contents == Some(Proof(identifier, ltpk, secret.client, identifier, secret.server))
    && identifier in s.answers.ltpkOf && s.answers.ltpkOf[identifier] == ltpk
  }

  /** `s` may have made an SRP session: an admitted setup M1 with an open window and no reset pending. */
  predicate Creates(s: Step, session: nat) {
    && s.frame.kind == PsStart && s.answers.admitted && !s.answers.resetPending && !s.answers.throttled
    && s.answers.window.Some? && s.answers.session == Some(session)
  }

  /** The proof a sealed field carries, if it opens under the exchange's secret and checks out. */
  predicate Checks(sealed: Option<Sealed>, secret: Secret, ltpkOf: map<string, string>) {
    && sealed.Some? && sealed.value.under == secret && sealed.value.contents.Some?
    && var p := sealed.value.contents.value;
       && p.identifier in ltpkOf && p.signer == ltpkOf[p.identifier] && p.signedIdentifier == p.identifier
       && p.signedClient == secret.client && p.signedServer == secret.server
  }

  /** When a handler completes, given the window its setup began in and its exchange's secret. */
  predicate Succeeds(h: Handler, tlv: Tlv, a: Answers, requirePaired: bool, setup: Option<Window>, secret: Option<Secret>) {
    && !a.sendFails
    && match h
       case M1Setup => a.admitted && !a.resetPending && !a.throttled && a.window.Some? && a.session.Some?
       case M3Setup => a.window.Some? && a.window == setup && a.srpProof == Some(true)
       case M5Setup => a.window.Some? && a.window == setup && a.enrollment == Stored
       case M1Verify => !a.resetPending && tlv.publicKey.Some?
       case M3Verify => requirePaired ==> secret.Some? && Checks(tlv.sealed, secret.value, a.ltpkOf)
  }

  /** How a handler ends: an exception only from a failed send or from making the SRP session. */
  function Outcome(h: Handler, tlv: Tlv, a: Answers, requirePaired: bool, setup: Option<Window>, secret: Option<Secret>): Handled {
    if Succeeds(h, tlv, a, requirePaired, setup, secret) then Completed
    else if a.sendFails || (h == M1Setup && a.admitted && !a.resetPending && !a.throttled && a.window.Some?) then Raised
    else Refused
  }

  /** Whether a handler makes an SRP session: the M1 of setup, once everything before that lets it. */
  predicate MakesSession(h: Handler, a: Answers) {
    h == M1Setup && a.admitted && !a.resetPending && !a.throttled && a.window.Some? && a.session.Some?
  }

  /** The pairing failures a handler records itself: a proof or a client that does not check out under
      the window its setup began in; neither a closed window nor a full store counts. */
  function Faults(h: Handler, a: Answers, setup: Option<Window>): nat {
    var current := a.window.Some? && a.window == setup;
    match h
    case M3Setup => if current && a.srpProof != Some(true) then 1 else 0
    case M5Setup => if current && a.enrollment in {Unreadable, NotAuthentic} then 1 else 0
    case _ => 0
  }

  /** The pairing failures one frame records: its handler's own, and one more for a setup frame that is
      out of place, unreadable or cut off by an exception. */
  function FrameFaults(phase: Phase, frame: Frame, a: Answers, requirePaired: bool, setup: Option<Window>, secret: Option<Secret>): nat {
    var rejected := if frame.kind in {PsStart, PsNext} then 1 else 0;
    if frame.decoded.None? then rejected
    else match NextTransition(phase, frame.kind, frame.decoded.value.seqno)
      case None => rejected
      case Some((h, _)) =>
        Faults(h, a, setup) + if Outcome(h, frame.decoded.value, a, requirePaired, setup, secret) == Raised then rejected else 0
  }

  /** The frame is a setup M1 where one may come: only then is the attempt limiter asked. */
  predicate StartsSetup(phase: Phase, frame: Frame) {
    && phase != Encrypted && frame.decoded.Some?
    && var t := NextTransition(phase, frame.kind, frame.decoded.value.seqno); t.Some? && t.value.0 == M1Setup
  }

  predicate Accepts(phase: Phase, frame: Frame, a: Answers, requirePaired: bool, setup: Option<Window>, secret: Option<Secret>) {
    frame.decoded.Some?
    && match NextTransition(phase, frame.kind, frame.decoded.value.seqno)
       case None => false
       case Some((h, _)) => Succeeds(h, frame.decoded.value, a, requirePaired, setup, secret)
  }

  lemma Unplaced(phase: Phase, frame: Frame, a: Answers, requirePaired: bool, setup: Option<Window>, secret: Option<Secret>)
    requires frame.decoded.None? || NextTransition(phase, frame.kind, frame.decoded.value.seqno).None?
    ensures !Accepts(phase, frame, a, requirePaired, setup, secret) && !StartsSetup(phase, frame)
    ensures FrameFaults(phase, frame, a, requirePaired, setup, secret) == if frame.kind in {PsStart, PsNext} then 1 else 0
  {
  }

  lemma AcceptedIsFaultless(phase: Phase, frame: Frame, a: Answers, requirePaired: bool, setup: Option<Window>, secret: Option<Secret>)
    ensures Accepts(phase, frame, a, requirePaired, setup, secret) ==>
              FrameFaults(phase, frame, a, requirePaired, setup, secret) == 0
  {
  }

  lemma OnlyLivePhasesMove(phase: Phase, kind: Kind, seqno: nat)
    requires NextTransition(phase, kind, seqno).Some?
    ensures phase !in {Encrypted, Failed, Closed}
    ensures NextTransition(phase, kind, seqno).value.1 !in {Idle, Failed, Closed}
    ensures NextTransition(phase, kind, seqno).value.0 == M5Setup <==> kind == PsNext && seqno == 5
  {
  }

  lemma OnlyLivePhasesAccept(phase: Phase, frame: Frame, a: Answers, requirePaired: bool, setup: Option<Window>, secret: Option<Secret>)
    ensures Accepts(phase, frame, a, requirePaired, setup, secret) ==> phase !in {Encrypted, Failed, Closed}
  {
  }

  lemma Placed(phase: Phase, frame: Frame, h: Handler, next: Phase, a: Answers, requirePaired: bool, setup: Option<Window>, secret: Option<Secret>)
    requires phase != Encrypted && frame.decoded.Some?
    requires NextTransition(phase, frame.kind, frame.decoded.value.seqno) == Some((h, next))
    ensures Accepts(phase, frame, a, requirePaired, setup, secret) <==> Succeeds(h, frame.decoded.value, a, requirePaired, setup, secret)
    ensures StartsSetup(phase, frame) && MakesSession(M1Setup, a) <==> MakesSession(h, a)
    ensures FrameFaults(phase, frame, a, requirePaired, setup, secret)
            == Faults(h, a, setup)
             + if Outcome(h, frame.decoded.value, a, requirePaired, setup, secret) == Raised && frame.kind in {PsStart, PsNext} then 1 else 0
  {
  }

  class CompanionServerAuth {
    const requirePaired: bool
    var phase: Phase
    var setupSession: Option<nat>
    var setupWindow: Option<Window>           // pin, expiry and generation of the window at M1
    var setupProofVerified: bool
    var inputKey: Option<TransportKey>
    var outputKey: Option<TransportKey>
    var pvSessionKey: Option<Secret>
    var pvServerPub: Option<EphemeralKey>
    var pvClientPub: Option<EphemeralKey>
    var verifiedClientIdentifier: Option<string>
    var verifiedClientLtpk: Option<string>
    var transport: Option<(TransportKey, TransportKey)>   // what enable_encryption was given
    var failures: nat                                     // recorded pairing failures
    ghost var history: seq<Step>
    ghost var sessionsMade: nat               // how often an SRP session was made
    ghost var enrolled: seq<string>           // window generations clients were stored under
    ghost var encryptedAt: nat                // the frame behind the last transition

    ghost predicate NoSetup()
      reads this`setupSession, this`setupWindow, this`setupProofVerified
    {
      setupSession.None? && setupWindow.None? && !setupProofVerified
    }

    ghost predicate NoVerify()
      reads this`inputKey, this`outputKey, this`pvSessionKey, this`pvServerPub, this`pvClientPub
    {
      inputKey.None? && outputKey.None? && pvSessionKey.None? && pvServerPub.None? && pvClientPub.None?
    }

    ghost predicate NoClient()
      reads this`verifiedClientIdentifier, this`verifiedClientLtpk
    {
      verifiedClientIdentifier.None? && verifiedClientLtpk.None?
    }

    /** Each phase holds exactly its own material. */
    ghost predicate Coherent()
      reads this
    {
      CoherentAs(phase, history, encryptedAt) && OnCourse(phase, history)
    }

    /** Unless the connection has failed or is closed, its frames follow an exchange. */
    ghost predicate OnCourse(phase: Phase, history: seq<Step>) {
      phase in {Failed, Closed} || (InPlace(history) && phase == Reached(history))
    }

    ghost predicate CoherentAs(phase: Phase, history: seq<Step>, encryptedAt: nat)
      reads this`setupSession, this`setupWindow, this`setupProofVerified
      reads this`inputKey, this`outputKey, this`pvSessionKey, this`pvServerPub, this`pvClientPub
      reads this`verifiedClientIdentifier, this`verifiedClientLtpk, this`transport
    {
      && (phase in {SetupM3, SetupM5} ==> SetupHeld(history, if phase == SetupM3 then 1 else 2))
      && (phase !in {SetupM3, SetupM5} ==> NoSetup())
      && (setupProofVerified <==> phase == SetupM5)
      && (phase == VerifyM3 ==> VerifyHeld(history))
      && (phase != VerifyM3 ==> NoVerify())
      && (phase == Encrypted ==> WellEncrypted(history, encryptedAt))
      && (phase != Encrypted ==> NoClient() && transport.None?)
    }

    /** The last frame handled was the M1 that this exchange's keys come from. */
    ghost predicate VerifyHeld(history: seq<Step>)
      reads this`inputKey, this`outputKey, this`pvSessionKey, this`pvServerPub, this`pvClientPub
    {
      && pvSessionKey.Some? && pvServerPub == Some(pvSessionKey.value.server) && pvClientPub == Some(pvSessionKey.value.client)
      && outputKey == Some(ServerEncrypt(pvSessionKey.value)) && inputKey == Some(ClientEncrypt(pvSessionKey.value))
      && history != [] && OpensExchange(history[|history| - 1], pvSessionKey.value.server, pvSessionKey.value.client)
    }

    /** The SRP session and its window come from the setup M1 `back` frames ago. */
    ghost predicate SetupHeld(history: seq<Step>, back: nat)
      reads this`setupSession, this`setupWindow, this`setupProofVerified
    {
      && setupSession.Some? && setupWindow.Some? && 1 <= back <= |history|
      && Creates(history[|history| - back], setupSession.value)
      && history[|history| - back].answers.window == setupWindow
    }

    /** Encryption started at an M3 directly after its own M1, with that exchange's keys, and for a
        client the store vouched for. */
    ghost predicate WellEncrypted(history: seq<Step>, encryptedAt: nat)
      reads this`verifiedClientIdentifier, this`verifiedClientLtpk, this`transport
    {
      && 1 <= encryptedAt < |history| && ClosesExchange(history[encryptedAt])
      && (exists e, c | OpensExchange(history[encryptedAt - 1], e, c) ::
            && transport == Some((ServerEncrypt(Secret(e, c)), ClientEncrypt(Secret(e, c))))
            && (requirePaired ==>
                  && verifiedClientIdentifier.Some? && verifiedClientLtpk.Some?
                  && Proves(history[encryptedAt], Secret(e, c), verifiedClientIdentifier.value, verifiedClientLtpk.value)))
    }

    constructor (requirePaired: bool)
      ensures Coherent() && phase == Idle && history == [] && this.requirePaired == requirePaired
    {
      this.requirePaired := requirePaired;
      phase, setupSession, setupWindow, setupProofVerified := Idle, None, None, false;
      inputKey, outputKey, pvSessionKey, pvServerPub, pvClientPub := None, None, None, None, None;
      verifiedClientIdentifier, verifiedClientLtpk, transport := None, None, None;
      failures, history, enrolled, encryptedAt, sessionsMade := 0, [], [], 0, 0;
    }

    method ClearSetupSession()
      modifies this`setupSession, this`setupWindow, this`setupProofVerified
      ensures NoSetup()
    {
      setupSession, setupWindow, setupProofVerified := None, None, false;
    }

    method ClearVerifySession()
      modifies this`inputKey, this`outputKey, this`pvSessionKey, this`pvServerPub, this`pvClientPub
      ensures NoVerify()
    {
      inputKey, outputKey, pvSessionKey, pvServerPub, pvClientPub := None, None, None, None, None;
    }

    method ClearVerifiedClient()
      modifies this`verifiedClientIdentifier, this`verifiedClientLtpk
      ensures NoClient()
    {
      verifiedClientIdentifier, verifiedClientLtpk := None, None;
    }

    method ClearPendingAuthState()
      modifies this
      ensures NoSetup() && NoVerify() && NoClient()
      ensures phase == old(phase) && transport == old(transport) && failures == old(failures)
      ensures history == old(history) && enrolled == old(enrolled) && encryptedAt == old(encryptedAt)
      ensures sessionsMade == old(sessionsMade)
    {
      ClearSetupSession();
      ClearVerifySession();
      ClearVerifiedClient();
    }

    /** When a connection starts or ends, nothing transient survives. */
    method Reset(connectionClosed: bool)
      modifies this
      ensures Coherent() && phase == (if connectionClosed then Closed else Idle) && transport.None?
      ensures NoSetup() && NoVerify() && NoClient()
    {
      ClearPendingAuthState();
      transport := None;
      phase := if connectionClosed then Closed else Idle;
      history := [];
    }

    method HandleM1Verify(tlv: Tlv, a: Answers) returns (r: Handled)
      requires NoSetup()
      modifies this
      ensures r == Outcome(M1Verify, tlv, a, requirePaired, None, None)
      ensures failures == old(failures) + Faults(M1Verify, a, None)
      ensures NoSetup() && NoClient() && transport == old(transport) && phase == old(phase)
      ensures history == old(history) && enrolled == old(enrolled) && encryptedAt == old(encryptedAt)
      ensures sessionsMade == old(sessionsMade)
      ensures r == Completed ==>
                && pvSessionKey == Some(Secret(a.ephemeral, tlv.publicKey.value))
                && pvServerPub == Some(a.ephemeral) && pvClientPub == tlv.publicKey
                && outputKey == Some(ServerEncrypt(pvSessionKey.value)) && inputKey == Some(ClientEncrypt(pvSessionKey.value))
    {
      ClearVerifySession();
      ClearVerifiedClient();
      if a.resetPending {
        return if a.sendFails then Raised else Refused;
      }
      if tlv.publicKey.None? {
        ClearVerifySession();
        return if a.sendFails then Raised else Refused;
      }
      var shared := Secret(a.ephemeral, tlv.publicKey.value);
      outputKey, inputKey := Some(ServerEncrypt(shared)), Some(ClientEncrypt(shared));
      pvSessionKey, pvServerPub, pvClientPub := Some(shared), Some(a.ephemeral), tlv.publicKey;
      return if a.sendFails then Raised else Completed;
    }

    /** Fails closed: an unknown client, a bad signature or anything malformed is refused. */
    method VerifyClient(tlv: Tlv, a: Answers) returns (ok: bool)
      requires pvSessionKey.Some? && pvServerPub == Some(pvSessionKey.value.server) && pvClientPub == Some(pvSessionKey.value.client)
      modifies this`verifiedClientIdentifier, this`verifiedClientLtpk
      ensures !requirePaired ==> ok && verifiedClientIdentifier == old(verifiedClientIdentifier) && verifiedClientLtpk == old(verifiedClientLtpk)
      ensures requirePaired ==>
                (ok <==> Checks(tlv.sealed, pvSessionKey.value, a.ltpkOf))
      ensures requirePaired && ok ==>
                && verifiedClientIdentifier == Some(tlv.sealed.value.contents.value.identifier)
                && verifiedClientLtpk == Some(tlv.sealed.value.contents.value.signer)
      ensures requirePaired && !ok ==> NoClient()
    {
      if !requirePaired {
        return true;
      }
      if tlv.sealed.None? || tlv.sealed.value.under != pvSessionKey.value || tlv.sealed.value.contents.None? {
        ClearVerifiedClient();
        return false;
      }
      var p := tlv.sealed.value.contents.value;
      if p.identifier !in a.ltpkOf {
        ClearVerifiedClient();
        return false;
      }
      var ltpk := a.ltpkOf[p.identifier];
      if p.signer != ltpk || p.signedClient != pvClientPub.value || p.signedIdentifier != p.identifier
        || p.signedServer != pvServerPub.value
      {
        ClearVerifiedClient();
        return false;
      }
      verifiedClientIdentifier, verifiedClientLtpk := Some(p.identifier), Some(ltpk);
      return true;
    }

    method HandleM3Verify(tlv: Tlv, a: Answers) returns (r: Handled)
      requires phase == VerifyM3 && Coherent()
      modifies this
      ensures phase == old(phase) && history == old(history) && enrolled == old(enrolled) && encryptedAt == old(encryptedAt)
      ensures sessionsMade == old(sessionsMade)
      ensures NoSetup()
      ensures r == Completed ==>
                && NoVerify() && !a.sendFails
                && transport == Some((old(outputKey).value, old(inputKey).value))
      ensures r == Completed && requirePaired ==>
                && verifiedClientIdentifier.Some? && verifiedClientLtpk.Some?
                && forall f: Frame | f.decoded == Some(tlv) ::
                     Proves(Step(f, a), old(pvSessionKey).value, verifiedClientIdentifier.value, verifiedClientLtpk.value)
      ensures r != Completed ==> transport == None
      ensures r == Outcome(M3Verify, tlv, a, requirePaired, None, old(pvSessionKey))
      ensures failures == old(failures) + Faults(M3Verify, a, None)
    {
      var ok := VerifyClient(tlv, a);
      if !ok {
        if a.sendFails {
          return Raised;
        }
        ClearVerifySession();
        return Refused;
      }
      var output, input := outputKey, inputKey;
      if a.sendFails {
        return Raised;
      }
      // Neither missing keys nor an active session can be met here.
      assert output.Some? && input.Some? && transport.None?;
      transport := Some((output.value, input.value));
      ClearVerifySession();
      return Completed;
    }

    method PairingFailed()
      modifies this`failures
      ensures failures == old(failures) + 1
    {
      failures := failures + 1;
    }

    predicate SetupWindowIsCurrent(a: Answers)
      reads this`setupWindow
    {
      a.window.Some? && a.window == setupWindow
    }

    method HandleM1Setup(tlv: Tlv, a: Answers) returns (r: Handled)
      requires NoSetup() && transport.None?
      modifies this
      ensures r == Outcome(M1Setup, tlv, a, requirePaired, None, None)
      ensures failures == old(failures) + Faults(M1Setup, a, None)
      ensures NoVerify() && NoClient() && transport == old(transport) && phase == old(phase)
      ensures history == old(history) && enrolled == old(enrolled) && encryptedAt == old(encryptedAt)
      ensures sessionsMade == old(sessionsMade) + if MakesSession(M1Setup, a) then 1 else 0
      ensures r == Completed ==> setupSession == a.session && setupWindow == a.window && !setupProofVerified
    {
      ClearVerifySession();
      ClearVerifiedClient();
      if !a.admitted || a.resetPending || a.throttled || a.window.None? {
        ClearSetupSession();
        return if a.sendFails then Raised else Refused;
      }
      // A setup M1 never finds an unfinished handshake to abandon.
      assert setupSession.None?;
      if a.session.None? {
        return Raised;
      }
      setupSession, setupWindow, setupProofVerified := a.session, a.window, false;
      sessionsMade := sessionsMade + 1;
      return if a.sendFails then Raised else Completed;
    }

    method HandleM3Setup(tlv: Tlv, a: Answers) returns (r: Handled)
      requires setupSession.Some? && setupWindow.Some? && !setupProofVerified
      modifies this
      ensures r == Outcome(M3Setup, tlv, a, requirePaired, old(setupWindow), None)
      ensures failures == old(failures) + Faults(M3Setup, a, old(setupWindow))
      ensures NoVerify() == old(NoVerify()) && NoClient() == old(NoClient()) && transport == old(transport) && phase == old(phase)
      ensures history == old(history) && enrolled == old(enrolled) && encryptedAt == old(encryptedAt)
      ensures sessionsMade == old(sessionsMade)
      ensures r == Completed ==> setupSession == old(setupSession) && setupWindow == old(setupWindow) && setupProofVerified
    {
      // An M3 always finds its session, and no proof verified yet.
      assert setupSession.Some? && !setupProofVerified;
      if !SetupWindowIsCurrent(a) {
        ClearSetupSession();
        return if a.sendFails then Raised else Refused;
      }
      if a.srpProof != Some(true) {
        PairingFailed();
        ClearSetupSession();
        return if a.sendFails then Raised else Refused;
      }
      setupProofVerified := true;
      return if a.sendFails then Raised else Completed;
    }

    method HandleM5Setup(tlv: Tlv, a: Answers) returns (r: Handled)
      requires setupSession.Some? && setupWindow.Some? && setupProofVerified
      modifies this
      ensures r == Outcome(M5Setup, tlv, a, requirePaired, old(setupWindow), None)
      ensures failures == old(failures) + Faults(M5Setup, a, old(setupWindow))
      ensures NoVerify() == old(NoVerify()) && NoClient() == old(NoClient()) && transport == old(transport) && phase == old(phase)
      ensures history == old(history) && encryptedAt == old(encryptedAt) && sessionsMade == old(sessionsMade)
      ensures enrolled == old(enrolled) + if a.window == old(setupWindow) && a.enrollment == Stored then [old(setupWindow).value.generation] else []
      ensures r == Completed ==> NoSetup()
    {
      // An M5 always finds its session, with the proof verified.
      assert setupSession.Some? && setupProofVerified;
      if !SetupWindowIsCurrent(a) {
        ClearSetupSession();
        return if a.sendFails then Raised else Refused;
      }
      if a.enrollment != Stored {
        if a.enrollment != NoRoom {
          PairingFailed();
        }
        ClearSetupSession();
        return if a.sendFails then Raised else Refused;
      }
      enrolled := enrolled + [setupWindow.value.generation];
      if a.sendFails {
        return Raised;
      }
      ClearSetupSession();
      return Completed;
    }

    /** Nothing is encrypted before the exchange that encrypts. */
    lemma NotYet()
      requires Coherent() && phase != Encrypted
      ensures transport.None?
    {
    }

    /** Erase all reusable material and accept nothing more. */
    method Fail(ghost step: Step)
      requires transport.None?
      modifies this
      ensures NoSetup() && NoVerify() && NoClient() && phase == Failed && Coherent()
      ensures transport.None? && history == old(history) + [step] && enrolled == old(enrolled) && sessionsMade == old(sessionsMade)
      ensures failures == old(failures)
    {
      ClearPendingAuthState();
      phase := Failed;
      history := history + [step];
    }

    /** A rejected setup frame also counts as a pairing failure. */
    method RejectAuthTransition(kind: Kind, ghost step: Step)
      requires transport.None?
      modifies this
      ensures NoSetup() && NoVerify() && NoClient() && phase == Failed && Coherent()
      ensures transport.None? && history == old(history) + [step] && enrolled == old(enrolled) && sessionsMade == old(sessionsMade)
      ensures failures == old(failures) + if kind in {PsStart, PsNext} then 1 else 0
    {
      Fail(step);
      if kind == PsStart || kind == PsNext {
        PairingFailed();
      }
    }

    /** Run the one handler that fits; what it leaves behind is what the next phase holds. */
    method RunHandler(h: Handler, tlv: Tlv, a: Answers, ghost step: Step, next: Phase) returns (r: Handled)
      requires Coherent() && phase != Encrypted && step.answers == a && step.frame.decoded == Some(tlv)
      requires NextTransition(phase, step.frame.kind, tlv.seqno) == Some((h, next))
      modifies this
      ensures phase == old(phase) && history == old(history)
      ensures r == Outcome(h, tlv, a, requirePaired, old(setupWindow), old(pvSessionKey))
      ensures failures == old(failures) + Faults(h, a, old(setupWindow))
      ensures sessionsMade == old(sessionsMade) + if MakesSession(h, a) then 1 else 0
      ensures r != Completed ==> transport == None
      ensures r == Completed && setupSession.Some? && setupSession != old(setupSession) ==> sessionsMade > old(sessionsMade)
      ensures r == Completed ==> CoherentAs(next, history + [step], |history|)
      ensures enrolled == old(enrolled) ||
              (old(phase) == SetupM5 && enrolled == old(enrolled) + [old(setupWindow).value.generation] && a.window == old(setupWindow))
      ensures r == Completed && h == M5Setup ==> a.window.Some? && enrolled == old(enrolled) + [a.window.value.generation]
    {
      hide OnCourse;
      match h
      case M1Setup => r := HandleM1Setup(tlv, a);
      case M3Setup => r := HandleM3Setup(tlv, a);
      case M5Setup => r := HandleM5Setup(tlv, a);
      case M1Verify => r := HandleM1Verify(tlv, a);
      case M3Verify => r := HandleM3Verify(tlv, a);
    }

    /** Accepted is what continues an exchange with good answers. */
    lemma AcceptsIff(frame: Frame, a: Answers)
      requires Coherent() && phase !in {Failed, Closed}
      ensures Accepts(phase, frame, a, requirePaired, setupWindow, pvSessionKey) <==>
              InPlace(history + [Step(frame, a)]) && Good(requirePaired, history, Step(frame, a))
      ensures StartsSetup(phase, frame) <==> InPlace(history + [Step(frame, a)]) && frame.kind == PsStart
    {
      hide RunsAs, InPlace, Reached, Checks;
      var s, h := Step(frame, a), history;
      if frame.decoded.None? {
        UnreadIsOut(h, s);
      } else {
        TransitionContinues(h, s);
      }
    }

    /** What counts as a pairing failure: a setup frame out of place or cut off by an exception, a proof
        or a client that does not check out under the window setup began in, and nothing else. */
    lemma FaultsAre(frame: Frame, a: Answers)
      requires Coherent() && phase !in {Failed, Closed, Encrypted}
      ensures var faults := FrameFaults(phase, frame, a, requirePaired, setupWindow, pvSessionKey);
              var h, s := history, Step(frame, a);
              var cut := if a.sendFails then 1 else 0;
              && (frame.kind in {PvStart, PvNext} ==> faults == 0)
              && (frame.kind in {PsStart, PsNext} && !InPlace(h + [s]) ==> faults == 1)
              && (InPlace(h + [s]) && frame.kind == PsNext && frame.decoded.Some? ==>
                    var back := if frame.decoded.value.seqno == 3 then 1 else 2;
                    && frame.decoded.value.seqno in {3, 5} && |h| >= back
                    && (if a.window.None? || a.window != h[|h| - back].answers.window then faults == cut
                        else if back == 1 then faults == cut + if a.srpProof == Some(true) then 0 else 1
                        else faults == cut + if a.enrollment in {Unreadable, NotAuthentic} then 1 else 0))
              && (InPlace(h + [s]) && frame.kind == PsStart ==>
                    faults == if a.sendFails || (a.admitted && !a.resetPending && !a.throttled && a.window.Some? && a.session.None?) then 1 else 0)
    {
      hide RunsAs, InPlace, Reached, Checks;
      var s, h := Step(frame, a), history;
      if frame.decoded.None? {
        UnreadIsOut(h, s);
      } else {
        TransitionContinues(h, s);
      }
    }

    /** Advance exactly one valid transition, or fail for good. */
    method HandleAuthFrame(frame: Frame, a: Answers) returns (ok: bool)
      requires Coherent()
      modifies this
      ensures Coherent()
      ensures old(phase) == Encrypted ==>
                !ok && phase == Encrypted && transport == old(transport) && history == old(history) && failures == old(failures)
      ensures old(phase) != Encrypted ==>
                && history == old(history) + [Step(frame, a)]
                && (ok <==> Accepts(old(phase), frame, a, requirePaired, old(setupWindow), old(pvSessionKey)))
                && failures == old(failures) + FrameFaults(old(phase), frame, a, requirePaired, old(setupWindow), old(pvSessionKey))
                && phase == if ok then NextTransition(old(phase), frame.kind, frame.decoded.value.seqno).value.1 else Failed
      ensures ok <==>
              && old(phase) !in {Failed, Closed}
              && InPlace(old(history) + [Step(frame, a)]) && Good(requirePaired, old(history), Step(frame, a))
      ensures ok ==> history == old(history) + [Step(frame, a)] && phase == Reached(history) && failures == old(failures)
      ensures ok ==> phase !in {Idle, Failed, Closed}
      ensures sessionsMade == old(sessionsMade) + if StartsSetup(old(phase), frame) && MakesSession(M1Setup, a) then 1 else 0
      ensures setupSession.Some? && setupSession != old(setupSession) ==> sessionsMade > old(sessionsMade)
      ensures enrolled == old(enrolled) ||
              (old(phase) == SetupM5 && enrolled == old(enrolled) + [old(setupWindow).value.generation] && a.window == old(setupWindow))
      ensures ok && frame.kind == PsNext && frame.decoded.value.seqno == 5 ==>
                a.window.Some? && enrolled == old(enrolled) + [a.window.value.generation]
    {
      hide CoherentAs, Succeeds, NoVerify, NoClient, Faults, Outcome, NextTransition, FrameFaults, Accepts, MakesSession,
           RunsAs, InPlace, Good, Reached;
      if phase !in {Failed, Closed} {
        AcceptsIff(frame, a);
        AcceptedIsFaultless(phase, frame, a, requirePaired, setupWindow, pvSessionKey);
      }
      OnlyLivePhasesAccept(phase, frame, a, requirePaired, setupWindow, pvSessionKey);
      if phase == Encrypted {
        return false;
      }
      NotYet();
      ghost var step := Step(frame, a);
      var transition := if frame.decoded.None? then None else NextTransition(phase, frame.kind, frame.decoded.value.seqno);
      if transition.None? {
        Unplaced(phase, frame, a, requirePaired, setupWindow, pvSessionKey);
        RejectAuthTransition(frame.kind, step);
        return false;
      }
      OnlyLivePhasesMove(phase, frame.kind, frame.decoded.value.seqno);
      Placed(phase, frame, transition.value.0, transition.value.1, a, requirePaired, setupWindow, pvSessionKey);
      ok := Advance(transition.value.0, frame.decoded.value, a, frame.kind, transition.value.1, step);
    }

    /** Take a transition that is in place: run its handler, and move on or fail. */
    method Advance(h: Handler, tlv: Tlv, a: Answers, kind: Kind, next: Phase, ghost step: Step) returns (ok: bool)
      requires Coherent() && phase != Encrypted && step == Step(Frame(kind, Some(tlv)), a)
      requires NextTransition(phase, kind, tlv.seqno) == Some((h, next))
      modifies this
      ensures Coherent() && history == old(history) + [step] && phase == if ok then next else Failed
      ensures ok <==> Succeeds(h, tlv, a, requirePaired, old(setupWindow), old(pvSessionKey))
      ensures failures == old(failures) + Faults(h, a, old(setupWindow))
                          + if Outcome(h, tlv, a, requirePaired, old(setupWindow), old(pvSessionKey)) == Raised && kind in {PsStart, PsNext}
                            then 1 else 0
      ensures sessionsMade == old(sessionsMade) + if MakesSession(h, a) then 1 else 0
      ensures setupSession.Some? && setupSession != old(setupSession) ==> sessionsMade > old(sessionsMade)
      ensures enrolled == old(enrolled) ||
              (old(phase) == SetupM5 && enrolled == old(enrolled) + [old(setupWindow).value.generation] && a.window == old(setupWindow))
      ensures ok && h == M5Setup ==> a.window.Some? && enrolled == old(enrolled) + [a.window.value.generation]
    {
      hide CoherentAs, Succeeds, NoVerify, NoClient, Faults, NextTransition, RunsAs, InPlace, Reached;
      OnlyLivePhasesMove(phase, kind, tlv.seqno);
      TransitionContinues(history, step);
      var r := RunHandler(h, tlv, a, step, next);
      if r == Raised {
        RejectAuthTransition(kind, step);
        return false;
      }
      if r == Refused {
        Fail(step);
        return false;
      }
      history := history + [step];
      encryptedAt := |history| - 1;
      phase := next;
      return true;
    }

    ghost predicate OnCourseSoFar(steps: seq<Step>)
      reads this
    {
      if AllGood(requirePaired, steps) then history == steps && OnCourse(phase, steps) && phase !in {Failed, Closed}
      else phase in {Failed, Encrypted}
    }

    lemma FreshCourse()
      requires Coherent() && phase == Idle
      ensures history == [] && InPlace([]) && Reached([]) == Idle
    {
    }

    /** Over any run: a frame is accepted exactly if it and every one before it continue an exchange, with
        good answers; so one refused frame and no later one is accepted. */
    method HandleAll(frames: seq<Frame>, answers: nat -> Answers) returns (oks: seq<bool>)
      requires Coherent()
      modifies this
      ensures Coherent() && |oks| == |frames|
      ensures forall i, j | 0 <= i < j < |oks| :: !oks[i] ==> !oks[j]
      ensures old(phase) in {Failed, Closed, Encrypted} ==> forall i | 0 <= i < |oks| :: !oks[i]
      ensures old(phase) == Idle ==>
                var steps := Steps(frames, answers);
                && (forall n | 0 <= n < |oks| :: oks[n] <==> AllGood(requirePaired, steps[..n + 1]))
                && (AllGood(requirePaired, steps) ==> phase == Reached(steps))
    {
      hide Coherent, CoherentAs, Succeeds, Accepts, FrameFaults, AllGood, InPlace, Good, Reached;
      ghost var steps := Steps(frames, answers);
      if phase == Idle {
        FreshCourse();
      }
      NothingYet(requirePaired);
      assert steps[..0] == [];
      oks := [];
      for i := 0 to |frames|
        invariant Coherent() && |oks| == i
        invariant forall k | 0 <= k < i :: !oks[k] ==> phase in {Failed, Encrypted}
        invariant forall k, l | 0 <= k < l < i :: !oks[k] ==> !oks[l]
        invariant old(phase) in {Failed, Closed, Encrypted} ==> phase in {Failed, Closed, Encrypted}
        invariant old(phase) in {Failed, Closed, Encrypted} ==> forall k | 0 <= k < i :: !oks[k]
        invariant old(phase) == Idle ==>
                    && (forall n | 0 <= n < i :: oks[n] <==> AllGood(requirePaired, steps[..n + 1]))
                    && OnCourseSoFar(steps[..i])
      {
        var ok := HandleAuthFrame(frames[i], answers(i));
        assert steps[..i + 1] == steps[..i] + [Step(frames[i], answers(i))];
        GoodGrows(requirePaired, steps[..i], Step(frames[i], answers(i)));
        oks := oks + [ok];
      }
      assert steps[..|frames|] == steps;
    }
  }
}
