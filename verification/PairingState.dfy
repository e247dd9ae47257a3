/** The recovery fence: publishing, upgrading and lifting it. */
module IdentityReset {
  import opened Base
  import opened StateDirectory
  import opened AtomicIo

  /** The fence exists and passes the strict open. */
  predicate StrictlyExists(files: Files) {
    Fence in files && files[Fence] != Unreadable
  }

  /** Fences that ask for a reset stay as they are; anything else becomes a fresh reset record. */
  function ResetFence(files: Files): Record {
    if PendingOperation(files) == Some(ResetIdentity) && StrictlyExists(files) then files[Fence]
    else FenceRecord(ResetIdentity)
  }

  method BeginIdentityReset(dir: StateDir) returns (r: Result<(), Failure>)
    requires dir.Valid()
    modifies dir
    ensures dir.StoppedIff(r == Err(Stopped))
    ensures dir.Valid() && old(dir.log) <= dir.log
    ensures r.Ok? ==>
      && dir.disk == Disk(old(dir.disk.visible)[Fence := ResetFence(old(dir.disk.visible))], {})
      && PendingOperation(dir.disk.visible) == Some(ResetIdentity)
      && Noted(old(dir.log), dir.log, FencePublished) && Noted(old(dir.log), dir.log, ResetPublished)
    ensures r.Err? ==> r.error == Stopped
  {
    hide StateDir.Valid;
    if PendingOperation(dir.disk.visible) == Some(ResetIdentity) && StrictlyExists(dir.disk.visible) {
      assert dir.disk.visible == dir.disk.visible[Fence := ResetFence(dir.disk.visible)];
      var _ :- dir.DurableFsyncParent();
    } else {
      var _ :- dir.DurableAtomicWrite(Fence, FenceRecord(ResetIdentity));
    }
    ghost var shown := dir.log;
    dir.Note(FencePublished);
    dir.Note(ResetPublished);
    assert dir.log[|shown|] == FencePublished && dir.log[|shown| + 1] == ResetPublished;
    return Ok(());
  }

  /** Returns whether this transaction owns an identity-preserving checkpoint. A pending reset is
      never downgraded: then the fence stays a reset and the answer is false. */
  method BeginClearAll(dir: StateDir) returns (r: Result<bool, Failure>)
    requires dir.Valid()
    modifies dir
    ensures dir.StoppedIff(r == Err(Stopped))
    ensures dir.Valid() && old(dir.log) <= dir.log
    ensures r.Ok? ==>
      && Noted(old(dir.log), dir.log, FencePublished)
      && r.value == (PendingOperation(old(dir.disk.visible)) != Some(ResetIdentity))
      && dir.disk == Disk(old(dir.disk.visible)[Fence :=
           if r.value then FenceRecord(ClearAll) else ResetFence(old(dir.disk.visible))], {})
    ensures r.Err? ==> r.error == Stopped
  {
    hide StateDir.Valid;
    var operation := PendingOperation(dir.disk.visible);
    if operation == Some(ResetIdentity) {
      if StrictlyExists(dir.disk.visible) {
        assert dir.disk.visible == dir.disk.visible[Fence := ResetFence(dir.disk.visible)];
        var _ :- dir.DurableFsyncParent();
      } else {
        var _ :- dir.DurableAtomicWrite(Fence, FenceRecord(ResetIdentity));
      }
      r := Ok(false);
    } else if operation == Some(ClearAll) {
      assert dir.disk.visible == dir.disk.visible[Fence := FenceRecord(ClearAll)];
      var _ :- dir.DurableFsyncParent();
      r := Ok(true);
    } else {
      var _ :- dir.DurableAtomicWrite(Fence, FenceRecord(ClearAll));
      r := Ok(true);
    }
    ghost var shown := dir.log;
    dir.Note(FencePublished);
    assert dir.log[|shown|] == FencePublished;
  }

  /** What lifting an ordinary-clear fence leaves: a reset fence is not touched by it. */
  function WithoutClearAll(files: Files): Files {
    (if PendingOperation(files) == Some(ClearAll) then files - {Fence} else files) - {LegacyFence}
  }

  method ClearClearAll(dir: StateDir) returns (r: Result<bool, Failure>)
    requires dir.Valid()
    requires ClientsGone(dir.disk)
    modifies dir
    ensures dir.StoppedIff(r == Err(Stopped))
    ensures dir.Valid() && OnlyShown(old(dir.log), dir.log)
    ensures r.Ok? ==>
      && dir.disk == Disk(WithoutClearAll(old(dir.disk.visible)), {})
      && r.value == (PendingOperation(old(dir.disk.visible)) == Some(ClearAll) || LegacyFence in old(dir.disk.visible))
    ensures r.Err? ==> r.error == Stopped
  {
    hide StateDir.Valid;
    var cleared := false;
    if PendingOperation(dir.disk.visible) == Some(ClearAll) {
      cleared :- dir.DurableUnlink(Fence);
    }
    var legacy :- dir.DurableUnlink(LegacyFence);
    return Ok(legacy || cleared);
  }

  /** Lift a reset fence; only once nothing but a newly drawn identity can surface. */
  method ClearIdentityReset(dir: StateDir) returns (r: Result<bool, Failure>)
    requires dir.Valid()
    requires ClientsGone(dir.disk) && OnlyLateIdentity(dir.log, dir.disk)
    modifies dir
    ensures dir.StoppedIff(r == Err(Stopped))
    ensures dir.Valid() && OnlyShown(old(dir.log), dir.log)
    ensures r.Ok? ==>
      var kept := PendingOperation(old(dir.disk.visible)) == Some(ClearAll);
      && r.value == (!kept && Fence in old(dir.disk.visible))
      && (kept ==> dir.disk == old(dir.disk))
      && (!kept ==> dir.disk == Disk(old(dir.disk.visible) - {Fence}, {}))
    ensures r.Err? ==> r.error == Stopped
  {
    hide StateDir.Valid;
    if PendingOperation(dir.disk.visible) == Some(ClearAll) {
      return Ok(false);
    }
    r := dir.DurableUnlink(Fence);
  }
}

/** The paired-client store, under the pairing-state lock. */
module PairedStore {
  import opened Base
  import opened StateDirectory
  import opened AtomicIo

  const KEY_DIGITS := 64  // 32 bytes in hex

  /** Which refusal, if any, a new client meets; a known identifier never counts against the cap. */
  function Refusal(files: Files, identifier: string, key: string): Option<Failure> {
    if identifier == "" || |key| != KEY_DIGITS then Some(InvalidEntry)
    else if ResetInProgress(files) then Some(ResetPending)
    else match ParsedClients(files)
      case None => Some(CorruptStore)
      case Some(m) =>
        if identifier !in m && |m| >= MAX_PAIRED_CLIENTS then Some(StoreFull) else None
  }

  lemma UpdateSize(m: map<string, string>, id: string, key: string)
    ensures |m[id := key]| == if id in m then |m| else |m| + 1
  {
    assert m[id := key].Keys == m.Keys + {id};
  }

  lemma RemoveSize(m: map<string, string>, id: string)
    ensures |m - {id}| <= |m|
  {
    assert (m - {id}).Keys <= m.Keys;
    SubsetSize((m - {id}).Keys, m.Keys);
  }

  lemma SubsetSize<T>(a: set<T>, b: set<T>)
    requires a <= b
    ensures |a| <= |b|
  {
    assert b == a + (b - a);
  }

  /** Persist one client for the enrollment window it was admitted under. */
  method AddLocked(dir: StateDir, identifier: string, key: string, window: string)
    returns (r: Result<(), Failure>)
    requires dir.Valid()
    requires Admissible(dir.log, dir.disk, Enrolled((identifier, key), window))
    modifies dir
    ensures dir.StoppedIff(r == Err(Stopped))
    ensures dir.Valid() && old(dir.log) <= dir.log
    ensures var refusal := Refusal(old(dir.disk.visible), identifier, key);
            if refusal.Some? then r == Err(refusal.value) && dir.disk == old(dir.disk) && dir.log == old(dir.log)
            else r == Err(Stopped) || r.Ok?
    ensures r == Err(InvalidEntry) <==> identifier == "" || |key| != KEY_DIGITS
    ensures r == Err(ResetPending) ==> ResetInProgress(old(dir.disk.visible))
    ensures r == Err(CorruptStore) ==> ParsedClients(old(dir.disk.visible)).None?
    ensures r == Err(StoreFull) ==>
      var clients := ParsedClients(old(dir.disk.visible)).value; identifier !in clients && |clients| >= MAX_PAIRED_CLIENTS
    ensures r.Err? ==> r.error in {Stopped, InvalidEntry, ResetPending, CorruptStore, StoreFull}
    ensures r.Ok? ==>
      var clients := ParsedClients(old(dir.disk.visible)).value[identifier := key];
      && ParsedClients(dir.disk.visible) == Some(clients)
      && dir.disk.stale == {}
      && dir.disk.visible - {ClientsFile} == old(dir.disk.visible) - {ClientsFile}
      && Noted(old(dir.log), dir.log, Enrolled((identifier, key), window))
  {
    hide StateDir.Valid;
    if identifier == "" || |key| != KEY_DIGITS {
      return Err(InvalidEntry);
    }
    if ResetInProgress(dir.disk.visible) {
      return Err(ResetPending);
    }
    var parsed := ParsedClients(dir.disk.visible);
    if parsed.None? {
      return Err(CorruptStore);
    }
    var clients := parsed.value;
    ghost var before := dir.log;
    if identifier in clients && clients[identifier] == key {
      dir.Note(Enrolled((identifier, key), window));
      assert dir.log[|before|] == Enrolled((identifier, key), window);
      assert clients == clients[identifier := key];
      var _ :- dir.DurableFsyncParent();
      return Ok(());
    }
    if identifier !in clients && |clients| >= MAX_PAIRED_CLIENTS {
      return Err(StoreFull);
    }
    UpdateSize(clients, identifier, key);
    dir.Note(Enrolled((identifier, key), window));
    assert dir.log[|before|] == Enrolled((identifier, key), window);
    assert LateClient(dir.log, (identifier, key));
    var _ :- dir.DurableAtomicWrite(ClientsFile, ClientsRecord(clients[identifier := key]));
    return Ok(());
  }

  /** The reload before a removal raises over a bad store, and over a marker it cannot open. */
  predicate Reloads(files: Files) {
    && ParsedClients(files).Some?
    && Read(files, Fence) != Some(Unreadable) && Read(files, LegacyFence) != Some(Unreadable)
  }

  /** Revoke one exact identifier; every other client keeps its key. */
  method RemoveLocked(dir: StateDir, identifier: string) returns (r: Result<bool, Failure>)
    requires dir.Valid()
    modifies dir
    ensures dir.StoppedIff(r == Err(Stopped))
    ensures dir.Valid() && OnlyShown(old(dir.log), dir.log)
    ensures !Reloads(old(dir.disk.visible)) <==> r == Err(CorruptStore)
    ensures r.Ok? ==>
      var clients := ParsedClients(old(dir.disk.visible)).value;
      && r.value == (identifier in clients)
      && ParsedClients(dir.disk.visible) == Some(clients - {identifier})
      && dir.disk.stale == {}
      && dir.disk.visible - {ClientsFile} == old(dir.disk.visible) - {ClientsFile}
    ensures r.Err? ==> r.error == Stopped || (r.error == CorruptStore && dir.disk == old(dir.disk))
  {
    hide StateDir.Valid;
    if !Reloads(dir.disk.visible) {
      return Err(CorruptStore);
    }
    var clients := ParsedClients(dir.disk.visible).value;
    if identifier !in clients {
      assert clients - {identifier} == clients;
      var _ :- dir.DurableFsyncParent();
      return Ok(false);
    }
    RemoveSize(clients, identifier);
    assert forall c <- (clients - {identifier}).Items :: c in clients.Items;
    var _ :- dir.DurableAtomicWrite(ClientsFile, ClientsRecord(clients - {identifier}));
    return Ok(true);
  }

  method ClearState(dir: StateDir) returns (r: Result<bool, Failure>)
    requires dir.Valid()
    modifies dir
    ensures dir.StoppedIff(r == Err(Stopped))
    ensures dir.Valid() && OnlyShown(old(dir.log), dir.log)
    ensures r.Ok? ==> dir.disk == Disk(old(dir.disk.visible) - {ClientsFile}, {}) && ClientsGone(dir.disk)
    ensures r.Ok? ==> r.value == (ClientsFile in old(dir.disk.visible))
    ensures r.Err? ==> r.error == Stopped
  {
    hide StateDir.Valid;
    r := dir.DurableUnlink(ClientsFile);
  }
}

/** The enrollment window record and the M5 transaction, under the pairing-state lock. */
module PairingWindow {
  import opened Base
  import opened StateDirectory
  import opened AtomicIo
  import PairedStore

  const GENERATION_LENGTH := 32
  const MAX_WINDOW_SECONDS := 24 * 60 * 60

  predicate ValidBinding(identifier: string, generation: string) {
    identifier != "" && |generation| == GENERATION_LENGTH
    && forall c <- generation :: c in "0123456789abcdef"
  }

  /** The active window that names this very server identity. */
  function WindowFor(files: Files, identifier: string, generation: string, now: int): (w: Option<Window>) {
    if !ValidBinding(identifier, generation) then None
    else match ActiveWindow(files, now)
      case Some(w) => if w.serverIdentifier == identifier && w.serverGeneration == generation then Some(w) else None
      case None => None
  }

  lemma DrawnIsLate(log: Log, generation: string)
    ensures LateWindow(log + [WindowDrawn(generation)], generation)
  {
    var log' := log + [WindowDrawn(generation)];
    assert log'[|log|] == WindowDrawn(generation);
  }

  /** `pin` and `generation` are the values the rejection-sampling loops ended with. */
  method OpenLocked(dir: StateDir, identifier: string, serverGeneration: string, duration: int, now: int,
                    pin: string, generation: string)
    returns (r: Result<Window, Failure>)
    requires dir.Valid()
    requires SetupStarted(generation) !in dir.log
    requires var previous := ActiveWindow(dir.disk.visible, now);
             previous.Some? ==> pin != previous.value.pin && generation != previous.value.generation
    modifies dir
    ensures dir.StoppedIff(r == Err(Stopped))
    ensures dir.Valid() && old(dir.log) <= dir.log
    ensures r.Ok? ==>
      && !ResetInProgress(old(dir.disk.visible)) && 0 < duration <= MAX_WINDOW_SECONDS
      && dir.disk == Disk(old(dir.disk.visible)[WindowFile := WindowRecord(r.value)], {})
      && WindowFor(dir.disk.visible, identifier, serverGeneration, now) == Some(r.value)
      && r.value.pin == pin && r.value.generation == generation && r.value.expiresAt == now + duration
      && ActiveWindow(dir.disk.visible, now + duration) == None
    ensures r.Err? && r.error != Stopped ==> dir.disk == old(dir.disk)
    ensures ResetInProgress(old(dir.disk.visible)) <==> r == Err(ResetPending)
    ensures r == Err(InvalidWindow) <==>
            && !ResetInProgress(old(dir.disk.visible))
            && (duration <= 0 || duration > MAX_WINDOW_SECONDS || !ValidBinding(identifier, serverGeneration))
    ensures r.Err? ==> r.error in {Stopped, ResetPending, InvalidWindow}
  {
    hide StateDir.Valid;
    if ResetInProgress(dir.disk.visible) {
      return Err(ResetPending);
    }
    if !(0 < duration <= MAX_WINDOW_SECONDS) || !ValidBinding(identifier, serverGeneration) {
      return Err(InvalidWindow);
    }
    var window := Window(pin, now + duration, generation, identifier, serverGeneration);
    DrawnIsLate(dir.log, generation);
    dir.Note(WindowDrawn(generation));
    var _ :- dir.DurableAtomicWrite(WindowFile, WindowRecord(window));
    dir.Note(WindowOpened(generation));
    return Ok(window);
  }

  /** Pair-setup M1 reads the window under the lock; the handshake stays bound to what it read. */
  method StartSetup(dir: StateDir, identifier: string, serverGeneration: string, now: int)
    returns (window: Option<Window>)
    requires dir.Valid()
    modifies dir`log
    ensures dir.Valid()
    ensures window == WindowFor(dir.disk.visible, identifier, serverGeneration, now)
    ensures forall w :: window == Some(w) <==>
              && ValidBinding(identifier, serverGeneration) && !ResetInProgress(dir.disk.visible)
              && Read(dir.disk.visible, WindowFile) == Some(WindowRecord(w)) && now < w.expiresAt
              && w.serverIdentifier == identifier && w.serverGeneration == serverGeneration
    ensures dir.log == if window.Some? then old(dir.log) + [SetupStarted(window.value.generation)] else old(dir.log)
  {
    hide StateDir.Valid;
    window := WindowFor(dir.disk.visible, identifier, serverGeneration, now);
    if window.Some? {
      dir.Note(SetupStarted(window.value.generation));
    }
  }

  /** Pair-setup M5: revalidate the window and persist the client in one transaction. */
  method MutateIfCurrent(dir: StateDir, generation: string, identifier: string, serverGeneration: string,
                         now: int, client: string, key: string)
    returns (r: Result<bool, Failure>)
    requires dir.Valid()
    modifies dir
    ensures dir.StoppedIff(r == Err(Stopped))
    ensures dir.Valid() && old(dir.log) <= dir.log
    ensures var w := WindowFor(old(dir.disk.visible), identifier, serverGeneration, now);
            var current := w.Some? && w.value.generation == generation;
            if !current then r == Ok(false) && dir.disk == old(dir.disk) && dir.log == old(dir.log)
            else match PairedStore.Refusal(old(dir.disk.visible), client, key)
              case Some(f) => r == Err(f) && dir.disk == old(dir.disk) && dir.log == old(dir.log)
              case None => r == Ok(true) || r == Err(Stopped)
    ensures r.Ok? && r.value <==> r.Ok? && exists w ::
              && Read(old(dir.disk.visible), WindowFile) == Some(WindowRecord(w)) && now < w.expiresAt
              && w.serverIdentifier == identifier && w.serverGeneration == serverGeneration && w.generation == generation
              && ValidBinding(identifier, serverGeneration) && !ResetInProgress(old(dir.disk.visible))
    ensures r == Ok(true) ==>
      && !ResetInProgress(dir.disk.visible)
      && (client, key) in Authority(dir.disk.visible)
      && ParsedClients(dir.disk.visible) == Some(ParsedClients(old(dir.disk.visible)).value[client := key])
      && dir.disk.stale == {}
      && Noted(old(dir.log), dir.log, Enrolled((client, key), generation))
  {
    hide StateDir.Valid;
    var window := WindowFor(dir.disk.visible, identifier, serverGeneration, now);
    if window.None? || window.value.generation != generation {
      return Ok(false);
    }
    ghost var before := dir.disk.visible;
    var _ :- PairedStore.AddLocked(dir, client, key, generation);
    assert forall n :: n in dir.disk.visible - {ClientsFile} <==> n in before - {ClientsFile};
    assert Fence !in before - {ClientsFile} && LegacyFence !in before - {ClientsFile};
    assert client in ParsedClients(dir.disk.visible).value;
    return Ok(true);
  }

  method ClearState(dir: StateDir) returns (r: Result<bool, Failure>)
    requires dir.Valid()
    modifies dir
    ensures dir.StoppedIff(r == Err(Stopped))
    ensures dir.Valid() && old(dir.log) <= dir.log
    ensures forall i | |old(dir.log)| <= i < |dir.log| :: dir.log[i].Shown? || dir.log[i].Rebooted? || dir.log[i].WindowCleared?
    ensures r.Ok? ==> dir.disk == Disk(old(dir.disk.visible) - {WindowFile}, {})
    ensures r.Ok? ==> r.value == (WindowFile in old(dir.disk.visible))
    ensures r.Err? ==> r.error == Stopped
  {
    hide StateDir.Valid;
    r := dir.DurableUnlink(WindowFile);
    if r.Ok? {
      dir.Note(WindowCleared);
    }
  }
}

/** The server identity: creation, recovery at startup, and the strict load `pair` uses. */
module ServerIdentity {
  import opened Base
  import opened StateDirectory
  import opened AtomicIo
  import opened IdentityReset
  import PairedStore
  import PairingWindow

  lemma MintedIsLate(log: Log, id: Identity, log': Log)
    requires OnlyShown(log + [Minted(id)], log')
    ensures LateIdentity(log', id)
  {
    assert log'[|log|] == (log + [Minted(id)])[|log|];
    assert log'[|log|] == Minted(id) && forall i :: |log| < i < |log'| ==> !log'[i].ResetPublished?;
  }

  lemma LaterIdentity(log: Log, id: Identity, log': Log)
    requires LateIdentity(log, id) && OnlyShown(log, log')
    ensures LateIdentity(log', id)
  {
    var k :| 0 <= k < |log| && log[k] == Minted(id) && forall i :: k < i < |log| ==> !log[i].ResetPublished?;
    assert log'[k] == Minted(id);
    assert forall i :: k < i < |log| ==> log'[i] == log[i];
  }

  /** What is left of the directory once an ordinary clear has been replayed. */
  function Cleared(files: Files): Files {
    WithoutClearAll(files - {WindowFile} - {ClientsFile})
  }

  /** Lift both fences after a reset has replaced the identity. */
  method FinishReset(dir: StateDir, drawn: Identity) returns (r: Result<Identity, Failure>)
    requires dir.Valid() && drawn.generation.Some?
    requires dir.disk.stale == {} && LateIdentity(dir.log, drawn)
    requires PendingOperation(dir.disk.visible) == Some(ResetIdentity)
    requires WindowFile !in dir.disk.visible && ClientsFile !in dir.disk.visible
    requires Read(dir.disk.visible, IdentityFile) == Some(IdentityRecord(drawn))
    modifies dir
    ensures dir.StoppedIff(r == Err(Stopped))
    ensures dir.Valid() && old(dir.log) <= dir.log
    ensures r.Ok? ==>
      && r.value == drawn
      && dir.disk == Disk(map[IdentityFile := IdentityRecord(drawn)], {})
      && Noted(old(dir.log), dir.log, Served(drawn))
    ensures r.Err? ==> r.error == Stopped
  {
    hide StateDir.Valid;
    ghost var before := dir.log;
    var _ :- ClearClearAll(dir);
    LaterIdentity(before, drawn, dir.log);
    var _ :- ClearIdentityReset(dir);
    assert forall n | n in dir.disk.visible :: n == IdentityFile;
    assert dir.disk.visible == map[IdentityFile := IdentityRecord(drawn)];
    dir.Note(Served(drawn));
    assert dir.log[|dir.log| - 1] == Served(drawn);
    return Ok(drawn);
  }

  /** Window and clients go together, whatever is being cleared or reset. */
  method ClearRecords(dir: StateDir) returns (r: Result<(), Failure>)
    requires dir.Valid()
    modifies dir
    ensures dir.StoppedIff(r == Err(Stopped))
    ensures dir.Valid() && old(dir.log) <= dir.log
    ensures r.Ok? ==> dir.disk == Disk(old(dir.disk.visible) - {WindowFile} - {ClientsFile}, {}) && ClientsGone(dir.disk)
    ensures r.Err? ==> r.error == Stopped
  {
    hide StateDir.Valid;
    var _ :- PairingWindow.ClearState(dir);
    var _ :- PairedStore.ClearState(dir);
    return Ok(());
  }

  /** The new identity is drawn only now that nothing else is left, and written while the fence stands. */
  method ReplaceIdentity(dir: StateDir, drawn: Identity) returns (r: Result<Identity, Failure>)
    requires dir.Valid() && drawn.generation.Some?
    requires dir.disk.stale == {} && IdentityFile !in dir.disk.visible
    requires PendingOperation(dir.disk.visible) == Some(ResetIdentity)
    requires WindowFile !in dir.disk.visible && ClientsFile !in dir.disk.visible
    modifies dir
    ensures dir.StoppedIff(r == Err(Stopped))
    ensures dir.Valid() && old(dir.log) <= dir.log
    ensures r.Ok? ==>
      && r.value == drawn
      && dir.disk == Disk(map[IdentityFile := IdentityRecord(drawn)], {})
      && Noted(old(dir.log), dir.log, Served(drawn)) && Noted(old(dir.log), dir.log, Minted(drawn))
    ensures r.Err? ==> r.error == Stopped
  {
    hide StateDir.Valid;
    ghost var before := dir.log;
    dir.Note(Minted(drawn));
    MintedIsLate(before, drawn, dir.log);
    var _ :- dir.DurableAtomicWrite(IdentityFile, IdentityRecord(drawn));
    MintedIsLate(before, drawn, dir.log);
    r := FinishReset(dir, drawn);
    assert dir.log[|before|] == Minted(drawn);
  }

  method RecoverIdentityReset(dir: StateDir, drawn: Identity) returns (r: Result<Identity, Failure>)
    requires dir.Valid() && drawn.generation.Some?
    requires PendingOperation(dir.disk.visible) == Some(ResetIdentity)
    modifies dir
    ensures dir.StoppedIff(r == Err(Stopped))
    ensures dir.Valid() && old(dir.log) <= dir.log
    ensures r.Ok? ==>
      && r.value == drawn
      && dir.disk == Disk(map[IdentityFile := IdentityRecord(drawn)], {})
      && Noted(old(dir.log), dir.log, Served(drawn)) && Noted(old(dir.log), dir.log, Minted(drawn))
    ensures r.Err? ==> r.error == Stopped
  {
    hide StateDir.Valid;
    var _ :- ClearRecords(dir);
    var _ :- dir.DurableUnlink(IdentityFile);
    r := ReplaceIdentity(dir, drawn);
  }

  method RecoverClearAll(dir: StateDir) returns (r: Result<(), Failure>)
    requires dir.Valid()
    requires PendingOperation(dir.disk.visible) == Some(ClearAll)
    modifies dir
    ensures dir.StoppedIff(r == Err(Stopped))
    ensures dir.Valid() && old(dir.log) <= dir.log
    ensures r.Ok? ==>
      && dir.disk == Disk(Cleared(old(dir.disk.visible)), {})
      && !ResetInProgress(dir.disk.visible)
      && Read(dir.disk.visible, IdentityFile) == Read(old(dir.disk.visible), IdentityFile)
    ensures r.Err? ==> r.error == Stopped
  {
    hide StateDir.Valid;
    var _ :- ClearRecords(dir);
    var _ :- ClearClearAll(dir);
    return Ok(());
  }

  method WriteIdentity(dir: StateDir, id: Identity) returns (r: Result<Identity, Failure>)
    requires dir.Valid() && id.generation.Some?
    requires !IsReset(Read(dir.disk.visible, Fence))
    requires Allowed(dir.log, dir.disk, IdentityFile, Some(IdentityRecord(id)))
    modifies dir
    ensures dir.StoppedIff(r == Err(Stopped))
    ensures dir.Valid() && old(dir.log) <= dir.log
    ensures r.Ok? ==> r.value == id && Noted(old(dir.log), dir.log, Served(id))
    ensures r.Ok? ==> dir.disk == Disk(old(dir.disk.visible)[IdentityFile := IdentityRecord(id)], {})
    ensures r.Err? ==> r.error == Stopped
  {
    hide StateDir.Valid;
    var _ :- dir.DurableAtomicWrite(IdentityFile, IdentityRecord(id));
    dir.Note(Served(id));
    assert dir.log[|dir.log| - 1] == Served(id);
    return Ok(id);
  }

  /** An identity file is there and holds no identity. */
  predicate BadIdentity(files: Files) {
    IdentityFile in files && !files[IdentityFile].IdentityRecord?
  }

  /** Load, upgrade or create the identity once no recovery is pending. */
  method LoadSettled(dir: StateDir, drawn: Identity) returns (r: Result<Identity, Failure>)
    requires dir.Valid() && drawn.generation.Some?
    requires !ResetInProgress(dir.disk.visible)
    modifies dir
    ensures dir.StoppedIff(r == Err(Stopped))
    ensures dir.Valid() && old(dir.log) <= dir.log
    ensures r.Ok? ==>
      && dir.disk == Disk(old(dir.disk.visible)[IdentityFile := IdentityRecord(r.value)], {})
      && Noted(old(dir.log), dir.log, Served(r.value))
    ensures r.Ok? && IdentityFile !in old(dir.disk.visible) ==> r.value == drawn
    ensures r.Ok? && IdentityFile in old(dir.disk.visible) ==>
      forall id :: old(dir.disk.visible)[IdentityFile] == IdentityRecord(id) ==>
        r.value == if id.generation.Some? then id else id.(generation := drawn.generation)
    ensures BadIdentity(old(dir.disk.visible)) ==> r.Err?
    ensures r == Err(CorruptIdentity) ==> BadIdentity(old(dir.disk.visible)) && dir.disk.visible == old(dir.disk.visible)
    ensures r.Err? ==> r.error in {Stopped, CorruptIdentity}
  {
    hide StateDir.Valid;
    var found := Read(dir.disk.visible, IdentityFile);
    if found.None? {
      ghost var before := dir.log;
      dir.Note(Minted(drawn));
      MintedIsLate(before, drawn, dir.log);
      r := WriteIdentity(dir, drawn);
      return;
    }
    if found.value == Unreadable {
      return Err(CorruptIdentity);
    }
    var _ :- dir.DurableFsyncParent();
    if !found.value.IdentityRecord? {
      return Err(CorruptIdentity);
    }
    var id := found.value.identity;
    if id.generation.None? {
      r := WriteIdentity(dir, id.(generation := drawn.generation));
      return;
    }
    dir.Note(Served(id));
    assert dir.log[|dir.log| - 1] == Served(id);
    return Ok(id);
  }

  /** Finish whatever was interrupted, then load, upgrade or create the identity. */
  method LoadOrCreate(dir: StateDir, drawn: Identity) returns (r: Result<Identity, Failure>)
    requires dir.Valid() && drawn.generation.Some?
    modifies dir
    ensures dir.StoppedIff(r == Err(Stopped))
    ensures dir.Valid() && old(dir.log) <= dir.log
    ensures r.Ok? ==>
      && !ResetInProgress(dir.disk.visible) && dir.disk.stale == {}
      && Read(dir.disk.visible, IdentityFile) == Some(IdentityRecord(r.value))
      && Noted(old(dir.log), dir.log, Served(r.value))
    ensures r.Ok? && PendingOperation(old(dir.disk.visible)) == Some(ResetIdentity) ==>
      r.value == drawn && dir.disk.visible == map[IdentityFile := IdentityRecord(drawn)]
    ensures r.Ok? && PendingOperation(old(dir.disk.visible)) != Some(ResetIdentity) ==>
      && (IdentityFile !in old(dir.disk.visible) ==> r.value == drawn)
      && (forall id :: Read(old(dir.disk.visible), IdentityFile) == Some(IdentityRecord(id)) ==>
            r.value == if id.generation.Some? then id else id.(generation := drawn.generation))
      && (ResetInProgress(old(dir.disk.visible)) ==>
            ClientsFile !in dir.disk.visible && WindowFile !in dir.disk.visible)
      && (!ResetInProgress(old(dir.disk.visible)) ==>
            dir.disk.visible == old(dir.disk.visible)[IdentityFile := IdentityRecord(r.value)])
    // Only an identity file that no reset is about to replace can be found bad, and then it always is.
    ensures BadIdentity(old(dir.disk.visible)) && PendingOperation(old(dir.disk.visible)) != Some(ResetIdentity) ==> r.Err?
    ensures r == Err(CorruptIdentity) ==>
      BadIdentity(old(dir.disk.visible)) && PendingOperation(old(dir.disk.visible)) != Some(ResetIdentity)
    ensures r.Err? ==> r.error in {Stopped, CorruptIdentity}
  {
    hide StateDir.Valid;
    if Fence in dir.disk.visible {
      if PendingOperation(dir.disk.visible) == Some(ClearAll) {
        var _ :- RecoverClearAll(dir);
      } else {
        r := RecoverIdentityReset(dir, drawn);
        return;
      }
    } else if LegacyFence in dir.disk.visible {
      var owned :- BeginClearAll(dir);
      assert owned;  // with no common fence in sight, the promoted marker is always a clear
      var _ :- RecoverClearAll(dir);
    }
    r := LoadSettled(dir, drawn);
  }

  /** An identity file is there without an identity that a window can be bound to. */
  predicate Unbound(files: Files) {
    IdentityFile in files && (!files[IdentityFile].IdentityRecord? || files[IdentityFile].identity.generation.None?)
  }

  /** `pair` only ever names an identity that is committed, bound and not being reset. */
  method LoadPersisted(dir: StateDir) returns (r: Result<Identity, Failure>)
    requires dir.Valid()
    modifies dir
    ensures dir.StoppedIff(r == Err(Stopped))
    ensures dir.Valid() && old(dir.log) <= dir.log
    ensures dir.disk.visible == old(dir.disk.visible) || r == Err(Stopped)
    ensures forall i | |old(dir.log)| <= i < |dir.log| :: dir.log[i].Shown? || dir.log[i].Rebooted? || dir.log[i].Served?
    ensures r.Ok? ==>
      && !ResetInProgress(dir.disk.visible) && dir.disk.stale == {}
      && Read(dir.disk.visible, IdentityFile) == Some(IdentityRecord(r.value))
      && r.value.generation.Some?
      && Noted(old(dir.log), dir.log, Served(r.value))
    ensures ResetInProgress(old(dir.disk.visible)) <==> r == Err(ResetPending)
    ensures r == Err(MissingIdentity) <==> !ResetInProgress(old(dir.disk.visible)) && IdentityFile !in old(dir.disk.visible)
    ensures r == Err(CorruptIdentity) ==> Unbound(old(dir.disk.visible)) && !ResetInProgress(old(dir.disk.visible))
    ensures Unbound(old(dir.disk.visible)) ==> r.Err?
    ensures r.Err? ==> r.error in {Stopped, ResetPending, MissingIdentity, CorruptIdentity}
  {
    hide StateDir.Valid;
    if ResetInProgress(dir.disk.visible) {
      return Err(ResetPending);
    }
    if IdentityFile !in dir.disk.visible {
      return Err(MissingIdentity);
    }
    if dir.disk.visible[IdentityFile] == Unreadable {
      return Err(CorruptIdentity);
    }
    var _ :- dir.DurableFsyncParent();
    var record := dir.disk.visible[IdentityFile];
    if !record.IdentityRecord? || record.identity.generation.None? {
      return Err(CorruptIdentity);
    }
    dir.Note(Served(record.identity));
    assert dir.log[|dir.log| - 1] == Served(record.identity);
    return Ok(record.identity);
  }
}

/** The management commands, each one transaction under the pairing-state lock. */
module Management {
  import opened Base
  import opened StateDirectory
  import opened AtomicIo
  import opened IdentityReset
  import PairedStore
  import PairingWindow
  import ServerIdentity

  /** The directory a completed `unpair` leaves. */
  function Unpaired(files: Files, resetToo: bool): Files {
    if resetToo then files[Fence := ResetFence(files)] - {WindowFile} - {ClientsFile} - {IdentityFile}
    else if PendingOperation(files) == Some(ResetIdentity) then
      files[Fence := ResetFence(files)] - {WindowFile} - {ClientsFile}
    else files - {Fence} - {LegacyFence} - {WindowFile} - {ClientsFile}
  }

  /** A reset, asked for or pending, is left for startup to finish; otherwise nothing is left pending, and
      the identity stays. */
  lemma UnpairedIs(files: Files, resetToo: bool)
    ensures var left := Unpaired(files, resetToo);
            && Authority(left) == {} && ClientsFile !in left && WindowFile !in left
            && (if resetToo || PendingOperation(files) == Some(ResetIdentity)
                then PendingOperation(left) == Some(ResetIdentity) else !ResetInProgress(left))
            && Read(left, IdentityFile) == if resetToo then None else Read(files, IdentityFile)
  {
  }

  method Unpair(dir: StateDir, resetToo: bool) returns (r: Result<(), Failure>)
    requires dir.Valid()
    modifies dir
    ensures dir.StoppedIff(r == Err(Stopped))
    ensures dir.Valid() && old(dir.log) <= dir.log
    ensures r.Ok? ==> dir.disk == Disk(Unpaired(old(dir.disk.visible), resetToo), {})
    ensures r.Ok? ==> Authority(dir.disk.visible) == {} && ClientsFile !in dir.disk.visible && WindowFile !in dir.disk.visible
    ensures r.Ok? ==>
      if resetToo || PendingOperation(old(dir.disk.visible)) == Some(ResetIdentity)
      then PendingOperation(dir.disk.visible) == Some(ResetIdentity) else !ResetInProgress(dir.disk.visible)
    ensures r.Ok? ==> Read(dir.disk.visible, IdentityFile) == if resetToo then None else Read(old(dir.disk.visible), IdentityFile)
    ensures r.Err? ==> r.error == Stopped
  {
    hide StateDir.Valid, Authority, Noted, ActiveWindow, ResetFence;
    ghost var files := dir.disk.visible;
    var owned := false;
    if resetToo {
      var _ :- BeginIdentityReset(dir);
    } else {
      owned :- BeginClearAll(dir);
    }
    ghost var fenced := dir.disk.visible;
    var _ :- ServerIdentity.ClearRecords(dir);
    if resetToo {
      var _ :- dir.DurableUnlink(IdentityFile);
    }
    if !resetToo && owned {
      var _ :- ClearClearAll(dir);
    }
    assert dir.disk.visible == Unpaired(files, resetToo);
    UnpairedIs(files, resetToo);
    return Ok(());
  }

  method Pair(dir: StateDir, duration: int, now: int, pin: string, generation: string)
    returns (r: Result<Window, Failure>)
    requires dir.Valid()
    requires SetupStarted(generation) !in dir.log
    requires var previous := ActiveWindow(dir.disk.visible, now);
             previous.Some? ==> pin != previous.value.pin && generation != previous.value.generation
    modifies dir
    ensures dir.StoppedIff(r == Err(Stopped))
    ensures dir.Valid() && old(dir.log) <= dir.log
    ensures r.Ok? ==>
      && IdentityFile in old(dir.disk.visible) && old(dir.disk.visible)[IdentityFile].IdentityRecord?
      && var id := old(dir.disk.visible)[IdentityFile].identity;
      && r.value == Window(pin, now + duration, generation, id.identifier, id.generation.GetOr(""))
      && dir.disk == Disk(old(dir.disk.visible)[WindowFile := WindowRecord(r.value)], {})
      && PairingWindow.WindowFor(dir.disk.visible, id.identifier, id.generation.GetOr(""), now) == Some(r.value)
    ensures r.Err? && r.error != Stopped ==> dir.disk.visible == old(dir.disk.visible)
    ensures r == Err(ResetPending) <==> ResetInProgress(old(dir.disk.visible))
    ensures r == Err(MissingIdentity) <==> !ResetInProgress(old(dir.disk.visible)) && IdentityFile !in old(dir.disk.visible)
    ensures r == Err(CorruptIdentity) ==> ServerIdentity.Unbound(old(dir.disk.visible))
    ensures r == Err(InvalidWindow) ==>
      exists id :: Read(old(dir.disk.visible), IdentityFile) == Some(IdentityRecord(id)) && id.generation.Some?
                   && (duration <= 0 || duration > PairingWindow.MAX_WINDOW_SECONDS
                       || !PairingWindow.ValidBinding(id.identifier, id.generation.value))
    ensures r.Err? ==> r.error in {Stopped, ResetPending, MissingIdentity, CorruptIdentity, InvalidWindow}
  {
    hide StateDir.Valid;
    var id :- ServerIdentity.LoadPersisted(dir);
    r := PairingWindow.OpenLocked(dir, id.identifier, id.generation.value, duration, now, pin, generation);
  }

  method Revoke(dir: StateDir, identifier: string) returns (r: Result<bool, Failure>)
    requires dir.Valid()
    modifies dir
    ensures dir.StoppedIff(r == Err(Stopped))
    ensures dir.Valid() && OnlyShown(old(dir.log), dir.log)
    ensures r == Err(CorruptStore) <==>
            || ParsedClients(old(dir.disk.visible)).None?
            || Read(old(dir.disk.visible), Fence) == Some(Unreadable) || Read(old(dir.disk.visible), LegacyFence) == Some(Unreadable)
    ensures r.Err? ==> r.error in {Stopped, CorruptStore}
    ensures r.Ok? ==> r.value == (identifier in ParsedClients(old(dir.disk.visible)).value)
    ensures r.Ok? ==> forall key :: (identifier, key) !in Authority(dir.disk.visible)
    ensures r.Ok? ==> forall c | c in Authority(old(dir.disk.visible)) && c.0 != identifier :: c in Authority(dir.disk.visible)
    ensures r.Ok? ==> Authority(dir.disk.visible) <= Authority(old(dir.disk.visible))
  {
    hide StateDir.Valid, StateDir.StoppedIff, OnlyShown;
    ghost var before := dir.disk.visible;
    r := PairedStore.RemoveLocked(dir, identifier);
    if r.Ok? {
      assert forall n :: n in dir.disk.visible - {ClientsFile} <==> n in before - {ClientsFile};
      assert Fence in dir.disk.visible <==> Fence in dir.disk.visible - {ClientsFile};
      assert LegacyFence in dir.disk.visible <==> LegacyFence in dir.disk.visible - {ClientsFile};
      assert Fence in before <==> Fence in before - {ClientsFile};
      assert LegacyFence in before <==> LegacyFence in before - {ClientsFile};
    }
  }
}

/** Whole runs: any number of commands in any order, each stopped anywhere. */
module PairingRuns {
  import opened Base
  import opened StateDirectory
  import opened AtomicIo
  import PairingWindow
  import ServerIdentity
  import Management

  datatype Command =
    | Startup(drawn: Identity)
    | OpenWindow(duration: int, pin: string, generation: string)
    | RevokeClient(identifier: string)
    | UnpairAll(resetToo: bool)
    | SetupM1(identifier: string, serverGeneration: string)
    | SetupM5(window: string, identifier: string, serverGeneration: string, client: string, key: string)
    | PowerLoss(image: Files)

  /** What the random sources give: a generation no setup has used, a pin and generation unlike the last. */
  predicate Draws(dir: StateDir, c: Command, now: int)
    reads dir
  {
    && (c.Startup? ==> c.drawn.generation.Some?)
    && (c.OpenWindow? ==>
          && SetupStarted(c.generation) !in dir.log
          && var previous := ActiveWindow(dir.disk.visible, now);
          previous.Some? ==> c.pin != previous.value.pin && c.generation != previous.value.generation)
  }

  method Execute(dir: StateDir, c: Command, now: int)
    requires dir.Valid() && Draws(dir, c, now)
    modifies dir
    ensures dir.Valid() && old(dir.log) <= dir.log
  {
    match c
    case Startup(drawn) => var _ := ServerIdentity.LoadOrCreate(dir, drawn);
    case OpenWindow(duration, pin, generation) => var _ := Management.Pair(dir, duration, now, pin, generation);
    case RevokeClient(identifier) => var _ := Management.Revoke(dir, identifier);
    case UnpairAll(resetToo) => var _ := Management.Unpair(dir, resetToo);
    case SetupM1(identifier, generation) => var _ := PairingWindow.StartSetup(dir, identifier, generation, now);
    case SetupM5(window, identifier, generation, client, key) =>
      var _ := PairingWindow.MutateIfCurrent(dir, window, identifier, generation, now, client, key);
    case PowerLoss(image) => dir.Reboot(image);
  }

  /** Unless something stops it, enrolment works: on a directory that startup has settled, `pair`, the
      setup M1 and the setup M5 of a valid new client each succeed, and that client is authorized from
      then on, beside everyone who was. */
  method Enroll(dir: StateDir, id: Identity, duration: int, opening: int, pin: string, generation: string,
                started: int, finished: int, client: string, key: string)
    returns (window: Window)
    requires dir.Valid() && forall k | k >= dir.operations :: dir.faults(k).NoFault?
    requires Draws(dir, OpenWindow(duration, pin, generation), opening)
    requires Fence !in dir.disk.visible && LegacyFence !in dir.disk.visible
    requires Read(dir.disk.visible, IdentityFile) == Some(IdentityRecord(id))
    requires id.generation.Some? && PairingWindow.ValidBinding(id.identifier, id.generation.value)
    requires 0 < duration <= 24 * 60 * 60 && started < opening + duration && finished < opening + duration
    requires client != "" && |key| == 64
    requires ClientsFile in dir.disk.visible ==>
               exists m :: dir.disk.visible[ClientsFile] == ClientsRecord(m) && (|m| < 8 || (|m| == 8 && client in m))
    modifies dir
    ensures dir.Valid() && dir.disk.stale == {} && (client, key) in Authority(dir.disk.visible)
    ensures forall c | c in Authority(old(dir.disk.visible)) && c.0 != client :: c in Authority(dir.disk.visible)
    ensures window == Window(pin, opening + duration, generation, id.identifier, id.generation.value)
  {
    hide StateDir.Valid;
    ghost var before := dir.disk.visible;
    var result := Management.Pair(dir, duration, opening, pin, generation);
    window := result.value;
    assert dir.disk.visible == before[WindowFile := WindowRecord(window)];
    assert Read(dir.disk.visible, WindowFile) == Some(WindowRecord(window));
    var read := PairingWindow.StartSetup(dir, id.identifier, id.generation.value, started);
    assert read == Some(window);
    var enrolled := PairingWindow.MutateIfCurrent(dir, generation, id.identifier, id.generation.value, finished, client, key);
    assert enrolled == Ok(true);
  }

  /** The run theorem: whatever the directory held at first, whichever commands follow, wherever each
      of them is stopped, the whole history keeps every promise of the pairing state. */
  method AnyRun(initial: Files, faults: nat -> Fault, script: seq<(Command, int)>) returns (dir: StateDir)
    requires CapacityInv(Disk(initial, {}))
    ensures fresh(dir) && dir.faults == faults && dir.Valid() && [Shown(initial)] <= dir.log
    ensures RevocationHolds(dir.log) && ResetIsFinal(dir.log) && IdentityIsStable(dir.log)
    ensures EnrollmentIsBound(dir.log) && StoreIsBounded(dir.log) && FenceOutlivesClients(dir.log)
  {
    dir := new StateDir(initial, faults);
    for i := 0 to |script|
      invariant fresh(dir) && dir.faults == faults && dir.Valid() && [Shown(initial)] <= dir.log
    {
      var (command, now) := script[i];
      if Draws(dir, command, now) {
        Execute(dir, command, now);
      }
    }
  }
}
