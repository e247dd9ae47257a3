/**
 The pairing-state directory as the strict storage primitives see it, and the history of one run.

 `visible` is what every process reads now. `stale` holds, per file name, the older versions that a
 crash may bring back because no directory fsync has returned since they were superseded. After a
 crash each name independently shows one surviving version, which allows every loss of a suffix of
 the uncommitted operations and more. A failed fsync raises and commits nothing for certain.
 */
module StateDirectory {
  import opened Base

  // ---------------------------------------------------------------- records

  datatype Name = ClientsFile | WindowFile | IdentityFile | Fence | LegacyFence

  datatype Operation = ResetIdentity | ClearAll

  datatype Window = Window(pin: string, expiresAt: int, generation: string,
                           serverIdentifier: string, serverGeneration: string)

  /** An identity without a generation is one written before window bindings existed. */
  datatype Identity = Identity(identifier: string, privateKey: string, generation: Option<string>)

  type Client = (string, string)

  /** `Malformed` opens but does not parse; `Unreadable` fails the strict open itself. */
  datatype Record =
    | ClientsRecord(clients: map<string, string>)
    | WindowRecord(window: Window)
    | IdentityRecord(identity: Identity)
    | FenceRecord(operation: Operation)
    | Malformed
    | Unreadable

  type Files = map<Name, Record>

  const MAX_PAIRED_CLIENTS := 8

  function Read(files: Files, n: Name): Option<Record> {
    if n in files then Some(files[n]) else None
  }

  function Write(files: Files, n: Name, v: Option<Record>): Files {
    if v.Some? then files[n := v.value] else files - {n}
  }

  /** The operation startup would recover: anything but an exact clear-all record is a reset. */
  function PendingOperation(files: Files): Option<Operation> {
    match Read(files, Fence)
    case None => None
    case Some(FenceRecord(ClearAll)) => Some(ClearAll)
    case Some(_) => Some(ResetIdentity)
  }

  /** A marker counts by its presence alone, whatever its contents. */
  predicate ResetInProgress(files: Files) {
    Fence in files || LegacyFence in files
  }

  /** The parsed client store; a missing file is an empty store, a bad one is no store. */
  function ParsedClients(files: Files): Option<map<string, string>> {
    match Read(files, ClientsFile)
    case None => Some(map[])
    case Some(ClientsRecord(m)) => if |m| <= MAX_PAIRED_CLIENTS then Some(m) else None
    case Some(_) => None
  }

  /** The clients a pair-verified connection is still authorized as, judged on the files alone. */
  function Authority(files: Files): set<Client> {
    if ResetInProgress(files) then {}
    else match ParsedClients(files)
      case Some(m) => m.Items
      case None => {}
  }

  function ActiveWindow(files: Files, now: int): Option<Window> {
    if ResetInProgress(files) then None
    else match Read(files, WindowFile)
      case Some(WindowRecord(w)) => if w.expiresAt > now then Some(w) else None
      case _ => None
  }

  // ---------------------------------------------------------------- the disk

  datatype Disk = Disk(visible: Files, stale: set<(Name, Option<Record>)>)

  predicate Survives(d: Disk, n: Name, v: Option<Record>) {
    v == Read(d.visible, n) || (n, v) in d.stale
  }

  function Put(d: Disk, n: Name, v: Option<Record>): Disk {
    Disk(Write(d.visible, n, v), d.stale + {(n, Read(d.visible, n))})
  }

  function Commit(d: Disk): Disk { Disk(d.visible, {}) }

  predicate CrashImage(d: Disk, files: Files) {
    forall n: Name :: Survives(d, n, Read(files, n))
  }

  /** Every version that can still surface in `d'` could already surface in `d`. */
  ghost predicate Narrows(d: Disk, d': Disk) {
    forall n: Name, v: Option<Record> :: Survives(d', n, v) ==> Survives(d, n, v)
  }

  lemma CommitNarrows(d: Disk)
    ensures Narrows(d, Commit(d))
  {}

  lemma CrashNarrows(d: Disk, files: Files)
    requires CrashImage(d, files)
    ensures Narrows(d, Disk(files, {}))
  {}

  /** No version of the client store can come back: its removal has been committed. */
  predicate ClientsGone(d: Disk) {
    ClientsFile !in d.visible && forall e <- d.stale :: e.0 == ClientsFile ==> e.1.None?
  }

  // ---------------------------------------------------------------- the run so far

  datatype Event =
    | Shown(files: Files)               // a state some process may have read
    | Rebooted                          // every process is gone; a crash image comes next
    | FencePublished                    // begin_* returned: the fence is durable
    | ResetPublished                    // begin_identity_reset returned
    | Minted(identity: Identity)        // a fresh identity was drawn
    | Served(identity: Identity)        // startup or `pair` returned this identity
    | Enrolled(client: Client, window: string) // M5 is about to persist this client
    | WindowDrawn(generation: string)   // a fresh window generation was drawn
    | WindowOpened(generation: string)  // `pair` returned that window
    | WindowCleared                     // the window's removal returned
    | SetupStarted(generation: string)  // M1 read the active window

  type Log = seq<Event>

  function EnrolledIn(log: Log, i: nat, j: nat): set<Client>
    requires i <= j <= |log|
  {
    set k | i <= k < j && log[k].Enrolled? :: log[k].client
  }

  predicate MintedSince(log: Log, i: nat, id: Identity)
    requires i <= |log|
  {
    exists k :: i <= k < |log| && log[k] == Minted(id)
  }

  /** Someone could see a fence asking for a reset. */
  predicate ShowsReset(e: Event) {
    e.Shown? && IsReset(Read(e.files, Fence))
  }

  predicate ResetShownIn(log: Log, i: nat, j: nat)
    requires i <= j <= |log|
  {
    exists k :: i <= k < j && ShowsReset(log[k])
  }

  predicate WindowDrawnSince(log: Log, i: nat, generation: string)
    requires i <= |log|
  {
    exists k :: i <= k < |log| && log[k] == WindowDrawn(generation)
  }

  // ---------------------------------------------------------------- what the run keeps

  function Holds(v: Option<Record>): set<Client> {
    if v.Some? && v.value.ClientsRecord? then v.value.clients.Items else {}
  }

  predicate IsReset(v: Option<Record>) {
    v.Some? && v.value != FenceRecord(ClearAll)
  }

  /** Whatever survives a crash, either a fence is up or the store holds only clients of `since`. */
  ghost predicate Fenced(d: Disk, since: set<Client>) {
    || (forall v :: Survives(d, Fence, v) ==> v.Some?)
    || (forall v :: Survives(d, LegacyFence, v) ==> v.Some?)
    || (forall v :: Survives(d, ClientsFile, v) ==> Holds(v) <= since)
  }

  /** Whatever survives a crash, either the reset is still pending or any identity is a new one. */
  ghost predicate Replacing(log: Log, i: nat, d: Disk)
    requires i <= |log|
  {
    || (forall v :: Survives(d, Fence, v) ==> IsReset(v))
    || (forall v :: Survives(d, IdentityFile, v) && v.Some? ==>
                      v.value.IdentityRecord? && MintedSince(log, i, v.value.identity))
  }

  /** Only this identity can surface, and no surviving fence asks for its replacement. */
  ghost predicate Settled(d: Disk, id: Identity) {
    && (forall v :: Survives(d, IdentityFile, v) ==> v == Some(IdentityRecord(id)))
    && (forall v :: Survives(d, Fence, v) ==> !IsReset(v))
  }

  /** Any window that can surface was drawn after `i`, or is `except` itself. */
  ghost predicate Replaced(log: Log, i: nat, except: Option<string>, d: Disk)
    requires i <= |log|
  {
    forall v :: Survives(d, WindowFile, v) && v.Some? && v.value.WindowRecord? ==>
      var g := v.value.window.generation;
      Some(g) == except || WindowDrawnSince(log, i, g)
  }

  ghost predicate ClientsInv(log: Log, d: Disk) {
    forall i :: 0 <= i < |log| && log[i].FencePublished? ==> Fenced(d, EnrolledIn(log, i, |log|))
  }

  ghost predicate IdentityInv(log: Log, d: Disk) {
    forall i :: 0 <= i < |log| && log[i].ResetPublished? ==> Replacing(log, i, d)
  }

  ghost predicate ServedInv(log: Log, d: Disk) {
    forall i :: 0 <= i < |log| && log[i].Served? && !ResetShownIn(log, i, |log|) ==> Settled(d, log[i].identity)
  }

  ghost predicate WindowInv(log: Log, d: Disk) {
    && (forall i :: 0 <= i < |log| && log[i].WindowOpened? ==> Replaced(log, i, Some(log[i].generation), d))
    && (forall i :: 0 <= i < |log| && log[i].WindowCleared? ==> Replaced(log, i, None, d))
  }

  ghost predicate CapacityInv(d: Disk) {
    forall v :: Survives(d, ClientsFile, v) && v.Some? && v.value.ClientsRecord? ==>
                  |v.value.clients| <= MAX_PAIRED_CLIENTS
  }

  /** Everything a directory keeps at every instant of a run. */
  ghost predicate DiskInv(log: Log, d: Disk) {
    ClientsInv(log, d) && IdentityInv(log, d) && ServedInv(log, d) && WindowInv(log, d) && CapacityInv(d)
  }

  // ---------------------------------------------------------------- what the history shows

  /** Once a fence write has returned, nobody is authorized who was not enrolled after it. */
  ghost predicate RevocationHolds(log: Log) {
    forall i, j :: 0 <= i < j < |log| && log[i].FencePublished? && log[j].Shown? ==>
      Authority(log[j].files) <= EnrolledIn(log, i, j)
  }

  /** Once a reset has been published, only an identity drawn after it is ever served. */
  ghost predicate ResetIsFinal(log: Log) {
    forall i, j :: 0 <= i < j < |log| && log[i].ResetPublished? && log[j].Served? ==>
      exists k :: i <= k < j && log[k] == Minted(log[j].identity)
  }

  /** Two served identities with no reset fence ever visible between them are the same identity. */
  ghost predicate IdentityIsStable(log: Log) {
    forall i, j :: 0 <= i < j < |log| && log[i].Served? && log[j].Served? && !ResetShownIn(log, i, j)
      ==> log[i].identity == log[j].identity
  }

  /** An M5 persists a client only under the very window its M1 read: none opened or closed since. */
  ghost predicate EnrollmentIsBound(log: Log) {
    forall i, k, j | 0 <= i < k < j < |log| && log[i].SetupStarted? && log[j].Enrolled?
      && log[i].generation == log[j].window :: !log[k].WindowOpened? && !log[k].WindowCleared?
  }

  /** Short of a reboot, a marker disappears only from a directory whose client store is gone. */
  predicate Orderly(before: Files, after: Files) {
    (exists n <- {Fence, LegacyFence} :: n in before && n !in after) ==> ClientsFile !in before
  }

  ghost predicate Adjacent(log: Log, i: int, j: int) {
    && 0 <= i < j < |log| && log[i].Shown? && log[j].Shown?
    && forall k | i < k < j :: !log[k].Shown? && !log[k].Rebooted?
  }

  ghost predicate FenceOutlivesClients(log: Log) {
    forall i, j | Adjacent(log, i, j) :: Orderly(log[i].files, log[j].files)
  }

  ghost predicate StoreIsBounded(log: Log) {
    forall j | 0 <= j < |log| && log[j].Shown? && ClientsFile in log[j].files
      && log[j].files[ClientsFile].ClientsRecord? :: |log[j].files[ClientsFile].clients| <= MAX_PAIRED_CLIENTS
  }

  /** Generations are not drawn or announced again after a setup has started under them. */
  ghost predicate GenerationsAreFresh(log: Log) {
    forall i, k | 0 <= i < k < |log| && log[i].SetupStarted? ::
      log[k] != WindowDrawn(log[i].generation) && log[k] != WindowOpened(log[i].generation)
  }

  ghost predicate IdentitiesAreBound(log: Log) {
    forall i | 0 <= i < |log| && (log[i].Minted? || log[i].Served?) :: log[i].identity.generation.Some?
  }

  ghost predicate History(log: Log) {
    && RevocationHolds(log) && ResetIsFinal(log) && IdentityIsStable(log) && EnrollmentIsBound(log)
    && StoreIsBounded(log) && GenerationsAreFresh(log) && IdentitiesAreBound(log)
  }

  // ---------------------------------------------------------------- which steps keep it

  ghost predicate Late(log: Log, e: Event, kind: Event -> bool) {
    exists k :: 0 <= k < |log| && log[k] == e && forall i :: k < i < |log| ==> !kind(log[i])
  }

  ghost predicate LateClient(log: Log, c: Client) {
    exists k :: 0 <= k < |log| && log[k].Enrolled? && log[k].client == c
      && forall i :: k < i < |log| ==> !log[i].FencePublished?
  }

  ghost predicate LateIdentity(log: Log, id: Identity) {
    Late(log, Minted(id), (e: Event) => e.ResetPublished?)
  }

  ghost predicate LateWindow(log: Log, generation: string) {
    Late(log, WindowDrawn(generation), (e: Event) => e.WindowOpened? || e.WindowCleared?)
  }

  ghost predicate OnlyLateIdentity(log: Log, d: Disk) {
    forall v :: Survives(d, IdentityFile, v) && v.Some? ==> v.value.IdentityRecord? && LateIdentity(log, v.value.identity)
  }

  predicate AwaitsBinding(v: Option<Record>) {
    v.Some? && v.value.IdentityRecord? && v.value.identity.generation.None?
  }

  /** When the strict primitives may change one name: the order the recovery protocol relies on. */
  ghost predicate Allowed(log: Log, d: Disk, n: Name, v: Option<Record>) {
    match n
    case ClientsFile =>
      v.Some? ==>
        && v.value.ClientsRecord? && |v.value.clients| <= MAX_PAIRED_CLIENTS
        && forall c <- v.value.clients.Items :: c in Holds(Read(d.visible, ClientsFile)) || LateClient(log, c)
    case WindowFile =>
      v.Some? ==> v.value.WindowRecord? && LateWindow(log, v.value.window.generation)
    case IdentityFile =>
      var was := Read(d.visible, IdentityFile);
      var pending := IsReset(Read(d.visible, Fence));
      && (pending || was.None? || AwaitsBinding(was))
      && (v.Some? ==> v.value.IdentityRecord?
                      && (LateIdentity(log, v.value.identity) || (!pending && AwaitsBinding(was))))
    case Fence =>
      var was := Read(d.visible, Fence);
      && (v.None? ==> ClientsGone(d) || was.None?)
      && (!IsReset(v) && IsReset(was) ==> OnlyLateIdentity(log, d))
    case LegacyFence =>
      v.None? ==> ClientsGone(d) || LegacyFence !in d.visible
  }

  /** When an event may be noted: what has to be true of the disk for it to mean what it says. */
  ghost predicate Admissible(log: Log, d: Disk, e: Event) {
    match e
    case Shown(files) => files == d.visible
    case Rebooted => true
    case FencePublished => forall v :: Survives(d, Fence, v) ==> v.Some?
    case ResetPublished => forall v :: Survives(d, Fence, v) ==> IsReset(v)
    case Minted(id) => id.generation.Some?
    case Served(id) => Settled(d, id) && id.generation.Some?
    case Enrolled(_, g) =>
      WindowFile in d.visible && d.visible[WindowFile].WindowRecord? && d.visible[WindowFile].window.generation == g
    case WindowDrawn(g) => SetupStarted(g) !in log
    case WindowOpened(g) =>
      && SetupStarted(g) !in log
      && forall v :: Survives(d, WindowFile, v) && v.Some? && v.value.WindowRecord? ==> v.value.window.generation == g
    case WindowCleared => forall v :: Survives(d, WindowFile, v) ==> v.None?
    case SetupStarted(_) => true
  }

  // ---------------------------------------------------------------- proofs: changing the disk

  lemma ChangeKeepsClients(log: Log, d: Disk, n: Name, v: Option<Record>, d': Disk)
    requires ClientsInv(log, d) && Allowed(log, d, n, v) && Narrows(Put(d, n, v), d')
    ensures ClientsInv(log, d')
  {
    forall i | 0 <= i < |log| && log[i].FencePublished? ensures Fenced(d', EnrolledIn(log, i, |log|)) {
      var since := EnrolledIn(log, i, |log|);
      assert Fenced(d, since);
      assert Fenced(Put(d, n, v), since) by {
        assert Survives(d, n, Read(d.visible, n));
        if n == ClientsFile && v.Some? {
          forall c | c in v.value.clients.Items && LateClient(log, c) ensures c in since {
            var k :| 0 <= k < |log| && log[k].Enrolled? && log[k].client == c
              && forall j :: k < j < |log| ==> !log[j].FencePublished?;
          }
        }
      }
    }
  }

  lemma ChangeKeepsIdentity(log: Log, d: Disk, n: Name, v: Option<Record>, d': Disk)
    requires IdentityInv(log, d) && IdentitiesAreBound(log)
    requires Allowed(log, d, n, v) && Narrows(Put(d, n, v), d')
    ensures IdentityInv(log, d')
  {
    forall i | 0 <= i < |log| && log[i].ResetPublished? ensures Replacing(log, i, d') {
      assert Replacing(log, i, d);
      forall id | LateIdentity(log, id) ensures MintedSince(log, i, id) {
        var k :| 0 <= k < |log| && log[k] == Minted(id) && forall j :: k < j < |log| ==> !log[j].ResetPublished?;
      }
      assert Replacing(log, i, Put(d, n, v)) by {
        assert Survives(d, Fence, Read(d.visible, Fence));
        assert Survives(d, IdentityFile, Read(d.visible, IdentityFile));
      }
    }
  }

  /** A served identity stays the only one, until a change makes a reset fence visible. */
  lemma ChangeKeepsServed(log: Log, d: Disk, n: Name, v: Option<Record>, d': Disk)
    requires ServedInv(log, d) && IdentitiesAreBound(log)
    requires Allowed(log, d, n, v) && Narrows(Put(d, n, v), d')
    ensures ServedInv(log + [Shown(Put(d, n, v).visible)], d')
  {
    var e := Shown(Put(d, n, v).visible);
    var log' := log + [e];
    forall i | 0 <= i < |log'| && log'[i].Served? && !ResetShownIn(log', i, |log'|)
      ensures Settled(d', log'[i].identity)
    {
      if ResetShownIn(log, i, |log|) {
        NoteKeepsResetShown(log, e, i);
      }
      assert !ShowsReset(log'[|log|]);
      assert Settled(d, log[i].identity);
      assert Survives(d, Fence, Read(d.visible, Fence));
      assert Survives(d, IdentityFile, Read(d.visible, IdentityFile));
      assert Read(d.visible, IdentityFile) == Some(IdentityRecord(log[i].identity));
      assert n != IdentityFile;
      assert Settled(Put(d, n, v), log[i].identity) by {
        forall u | Survives(Put(d, n, v), IdentityFile, u) ensures Survives(d, IdentityFile, u) {}
      }
    }
  }

  lemma ChangeKeepsWindow(log: Log, d: Disk, n: Name, v: Option<Record>, d': Disk)
    requires WindowInv(log, d) && Allowed(log, d, n, v) && Narrows(Put(d, n, v), d')
    ensures WindowInv(log, d')
  {
    forall i | 0 <= i < |log| && (log[i].WindowOpened? || log[i].WindowCleared?)
      ensures Replaced(log, i, if log[i].WindowOpened? then Some(log[i].generation) else None, d')
    {
      if n == WindowFile && v.Some? {
        var g := v.value.window.generation;
        var k :| 0 <= k < |log| && log[k] == WindowDrawn(g)
          && forall j :: k < j < |log| ==> !log[j].WindowOpened? && !log[j].WindowCleared?;
        assert WindowDrawnSince(log, i, g);
      }
      assert Survives(d, n, Read(d.visible, n));
    }
  }

  /** Every change made in the allowed order keeps all invariants and claims once it is visible,
      whatever a fault leaves of it. */
  lemma ChangeKeepsDisk(log: Log, d: Disk, n: Name, v: Option<Record>)
    requires DiskInv(log, d) && History(log) && Allowed(log, d, n, v)
    ensures var d' := Put(d, n, v);
            DiskInv(log + [Shown(d'.visible)], d') && History(log + [Shown(d'.visible)])
  {
    var d' := Put(d, n, v);
    ChangeKeepsClients(log, d, n, v, d');
    ChangeKeepsIdentity(log, d, n, v, d');
    ChangeKeepsServed(log, d, n, v, d');
    ChangeKeepsWindow(log, d, n, v, d');
    ChangeKeepsCapacity(log, d, n, v);
    ShownKeeps(log, d');
  }

  lemma ChangeKeepsCapacity(log: Log, d: Disk, n: Name, v: Option<Record>)
    requires CapacityInv(d) && Allowed(log, d, n, v)
    ensures CapacityInv(Put(d, n, v))
  {
    assert Survives(d, n, Read(d.visible, n));
  }

  /** A reboot, a write-back or a failed sync only takes versions away. */
  lemma LossKeepsDisk(log: Log, d: Disk, d': Disk)
    requires DiskInv(log, d) && Narrows(d, d')
    ensures DiskInv(log, d')
  {
    forall i | 0 <= i < |log| && log[i].FencePublished? ensures Fenced(d', EnrolledIn(log, i, |log|)) {
      assert Fenced(d, EnrolledIn(log, i, |log|));
    }
    forall i | 0 <= i < |log| && log[i].ResetPublished? ensures Replacing(log, i, d') {
      assert Replacing(log, i, d);
    }
  }

  // ---------------------------------------------------------------- proofs: noting an event

  lemma NoteKeepsClients(log: Log, d: Disk, e: Event)
    requires ClientsInv(log, d) && Admissible(log, d, e)
    ensures ClientsInv(log + [e], d)
  {
    var log' := log + [e];
    forall i | 0 <= i < |log'| && log'[i].FencePublished? ensures Fenced(d, EnrolledIn(log', i, |log'|)) {
      if i < |log| {
        assert EnrolledIn(log, i, |log|) <= EnrolledIn(log', i, |log'|) by {
          forall c | c in EnrolledIn(log, i, |log|) ensures c in EnrolledIn(log', i, |log'|) {
            var k :| i <= k < |log| && log[k].Enrolled? && log[k].client == c;
            assert log'[k] == log[k];
          }
        }
        assert Fenced(d, EnrolledIn(log, i, |log|));
      }
    }
  }

  lemma NoteKeepsMinted(log: Log, e: Event, i: nat, id: Identity)
    requires i <= |log| && MintedSince(log, i, id)
    ensures MintedSince(log + [e], i, id)
  {
    var k :| i <= k < |log| && log[k] == Minted(id);
    assert (log + [e])[k] == log[k];
  }

  lemma NoteKeepsDrawn(log: Log, e: Event, i: nat, g: string)
    requires i <= |log| && WindowDrawnSince(log, i, g)
    ensures WindowDrawnSince(log + [e], i, g)
  {
    var k :| i <= k < |log| && log[k] == WindowDrawn(g);
    assert (log + [e])[k] == log[k];
  }

  lemma NoteKeepsResetShown(log: Log, e: Event, i: nat)
    requires i <= |log| && ResetShownIn(log, i, |log|)
    ensures ResetShownIn(log + [e], i, |log| + 1)
  {
    var k :| i <= k < |log| && ShowsReset(log[k]);
    assert (log + [e])[k] == log[k];
  }

  lemma NoteKeepsIdentity(log: Log, d: Disk, e: Event)
    requires IdentityInv(log, d) && Admissible(log, d, e)
    ensures IdentityInv(log + [e], d)
  {
    var log' := log + [e];
    forall i | 0 <= i < |log'| && log'[i].ResetPublished? ensures Replacing(log', i, d) {
      if i < |log| {
        assert Replacing(log, i, d);
        forall id | MintedSince(log, i, id) ensures MintedSince(log', i, id) {
          NoteKeepsMinted(log, e, i, id);
        }
      }
    }
  }

  lemma NoteKeepsServed(log: Log, d: Disk, e: Event)
    requires ServedInv(log, d) && Admissible(log, d, e)
    ensures ServedInv(log + [e], d)
  {
    var log' := log + [e];
    forall i | 0 <= i < |log'| && log'[i].Served? && !ResetShownIn(log', i, |log'|)
      ensures Settled(d, log'[i].identity)
    {
      if i < |log| && ResetShownIn(log, i, |log|) {
        NoteKeepsResetShown(log, e, i);
      }
    }
  }

  lemma NoteKeepsWindow(log: Log, d: Disk, e: Event)
    requires WindowInv(log, d) && Admissible(log, d, e)
    ensures WindowInv(log + [e], d)
  {
    var log' := log + [e];
    forall i | 0 <= i < |log'| && (log'[i].WindowOpened? || log'[i].WindowCleared?)
      ensures Replaced(log', i, if log'[i].WindowOpened? then Some(log'[i].generation) else None, d)
    {
      if i < |log| {
        forall g | WindowDrawnSince(log, i, g) ensures WindowDrawnSince(log', i, g) {
          NoteKeepsDrawn(log, e, i, g);
        }
        assert log'[i] == log[i];
      }
    }
  }

  lemma PrefixKeeps(log: Log, e: Event, i: nat, j: nat)
    requires i <= j <= |log|
    ensures EnrolledIn(log + [e], i, j) == EnrolledIn(log, i, j)
    ensures ResetShownIn(log + [e], i, j) == ResetShownIn(log, i, j)
  {
    var log' := log + [e];
    assert forall k :: i <= k < j ==> log'[k] == log[k];
    if ResetShownIn(log, i, j) {
      var k :| i <= k < j && ShowsReset(log[k]);
      assert ShowsReset(log'[k]);
    }
  }

  lemma NoteKeepsRevocation(log: Log, d: Disk, e: Event)
    requires ClientsInv(log, d) && RevocationHolds(log) && Admissible(log, d, e)
    ensures RevocationHolds(log + [e])
  {
    var log' := log + [e];
    forall i, j | 0 <= i < j < |log'| && log'[i].FencePublished? && log'[j].Shown?
      ensures Authority(log'[j].files) <= EnrolledIn(log', i, j)
    {
      PrefixKeeps(log, e, i, j);
      if j == |log| {
        var since := EnrolledIn(log, i, j);
        assert log'[i] == log[i];
        assert Fenced(d, since);
        assert Survives(d, Fence, Read(d.visible, Fence));
        assert Survives(d, LegacyFence, Read(d.visible, LegacyFence));
        assert Survives(d, ClientsFile, Read(d.visible, ClientsFile));
      } else {
        assert log'[i] == log[i] && log'[j] == log[j];
      }
    }
  }

  lemma NoteKeepsResetFinal(log: Log, d: Disk, e: Event)
    requires IdentityInv(log, d) && ResetIsFinal(log) && Admissible(log, d, e)
    ensures ResetIsFinal(log + [e])
  {
    var log' := log + [e];
    forall i, j | 0 <= i < j < |log'| && log'[i].ResetPublished? && log'[j].Served?
      ensures exists k :: i <= k < j && log'[k] == Minted(log'[j].identity)
    {
      assert log'[i] == log[i];
      if j == |log| {
        assert Replacing(log, i, d);
        assert Survives(d, Fence, Read(d.visible, Fence));
        assert Survives(d, IdentityFile, Read(d.visible, IdentityFile));
        var k :| i <= k < |log| && log[k] == Minted(e.identity);
        assert log'[k] == log[k];
      } else {
        assert log'[j] == log[j];
        var k :| i <= k < j && log[k] == Minted(log[j].identity);
        assert log'[k] == log[k];
      }
    }
  }

  lemma NoteKeepsStable(log: Log, d: Disk, e: Event)
    requires ServedInv(log, d) && IdentityIsStable(log) && Admissible(log, d, e)
    ensures IdentityIsStable(log + [e])
  {
    var log' := log + [e];
    forall i, j | 0 <= i < j < |log'| && log'[i].Served? && log'[j].Served? && !ResetShownIn(log', i, j)
      ensures log'[i].identity == log'[j].identity
    {
      assert log'[i] == log[i];
      PrefixKeeps(log, e, i, j);
      if j == |log| {
        assert Settled(d, log[i].identity);
        assert Survives(d, IdentityFile, Read(d.visible, IdentityFile));
      } else {
        assert log'[j] == log[j];
      }
    }
  }

  lemma NoteKeepsEnrollment(log: Log, d: Disk, e: Event)
    requires WindowInv(log, d) && EnrollmentIsBound(log) && GenerationsAreFresh(log) && Admissible(log, d, e)
    ensures EnrollmentIsBound(log + [e])
  {
    var log' := log + [e];
    forall i, k, j | 0 <= i < k < j < |log'| && log'[i].SetupStarted? && log'[j].Enrolled?
      && log'[i].generation == log'[j].window
      ensures !log'[k].WindowOpened? && !log'[k].WindowCleared?
    {
      assert log'[i] == log[i] && log'[k] == log[k];
      if j == |log| {
        assert Survives(d, WindowFile, Read(d.visible, WindowFile));
      } else {
        assert log'[j] == log[j];
      }
    }
  }

  /** An event noted when it is true keeps every invariant and every claim about the run. */
  lemma NoteKeeps(log: Log, d: Disk, e: Event)
    requires DiskInv(log, d) && History(log) && Admissible(log, d, e)
    ensures DiskInv(log + [e], d) && History(log + [e])
  {
    NoteKeepsClients(log, d, e);
    NoteKeepsIdentity(log, d, e);
    NoteKeepsServed(log, d, e);
    NoteKeepsWindow(log, d, e);
    NoteKeepsRevocation(log, d, e);
    NoteKeepsResetFinal(log, d, e);
    NoteKeepsStable(log, d, e);
    NoteKeepsEnrollment(log, d, e);
    assert Survives(d, ClientsFile, Read(d.visible, ClientsFile));
  }

  /** Showing what is there now, where the served identities are already judged with it shown. */
  lemma ShownKeeps(log: Log, d: Disk)
    requires ClientsInv(log, d) && IdentityInv(log, d) && WindowInv(log, d) && CapacityInv(d)
    requires ServedInv(log + [Shown(d.visible)], d) && History(log)
    ensures DiskInv(log + [Shown(d.visible)], d) && History(log + [Shown(d.visible)])
  {
    var e := Shown(d.visible);
    NoteKeepsClients(log, d, e);
    NoteKeepsIdentity(log, d, e);
    NoteKeepsWindow(log, d, e);
    NoteKeepsRevocation(log, d, e);
    NoteKeepsResetFinal(log, d, e);
    ShownKeepsStable(log, e);
    NoteKeepsEnrollment(log, d, e);
    ShownKeepsBounded(log, d);
  }

  lemma ShownKeepsStable(log: Log, e: Event)
    requires IdentityIsStable(log) && e.Shown?
    ensures IdentityIsStable(log + [e])
  {
    var log' := log + [e];
    forall i, j | 0 <= i < j < |log'| && log'[i].Served? && log'[j].Served? && !ResetShownIn(log', i, j)
      ensures log'[i].identity == log'[j].identity
    {
      assert log'[i] == log[i] && log'[j] == log[j];
      PrefixKeeps(log, e, i, j);
    }
  }

  lemma ShownKeepsBounded(log: Log, d: Disk)
    requires CapacityInv(d) && StoreIsBounded(log) && GenerationsAreFresh(log) && IdentitiesAreBound(log)
    ensures StoreIsBounded(log + [Shown(d.visible)]) && GenerationsAreFresh(log + [Shown(d.visible)])
    ensures IdentitiesAreBound(log + [Shown(d.visible)])
  {
    assert Survives(d, ClientsFile, Read(d.visible, ClientsFile));
  }
}
