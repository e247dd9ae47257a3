/**
 The strict storage primitives over one state directory. Each may be stopped at any point: the call
 raises, the process is killed, or the machine reboots and the directory shows a crash image. Which of
 them meets what is given beforehand, for all operations there will ever be.
 */
module AtomicIo {
  import opened Base
  import opened StateDirectory

  datatype Failure =
    | Stopped            // a sync failed, the process was killed, or the machine rebooted
    | ResetPending
    | MissingIdentity
    | CorruptIdentity
    | CorruptStore
    | StoreFull
    | InvalidEntry
    | InvalidWindow

  /** What one operation meets. */
  datatype Fault =
    | NoFault
    | Refused                 // nothing changed
    | Unsynced                // the change is visible, its sync failed
    | Killed                  // everything was done, and the process died before the call returned
    | PowerCut(image: Files)  // the change was made, and what the disk shows next is not up to us

  /** What a changed directory is left as. */
  ghost predicate LeftBy(fault: Fault, before: Disk, changed: Disk, after: Disk) {
    match fault
    case NoFault | Killed => after == Commit(changed)
    case Refused => after == before
    case Unsynced => after == changed
    case PowerCut(image) =>
      after.stale == {} && CrashImage(changed, after.visible) && (CrashImage(changed, image) ==> after.visible == image)
  }

  ghost predicate OnlyShown(log: Log, log': Log) {
    log <= log' && forall i | |log| <= i < |log'| :: log'[i].Shown? || log'[i].Rebooted?
  }

  /** The last state put into the history is the one every process reads now. */
  ghost predicate ShowsNow(log: Log, files: Files) {
    exists k :: 0 <= k < |log| && log[k] == Shown(files) && forall i :: k < i < |log| ==> !log[i].Shown?
  }

  lemma NoteShows(log: Log, files: Files, e: Event)
    requires if e.Shown? then e.files == files else ShowsNow(log, files)
    ensures ShowsNow(log + [e], files)
  {
    if e.Shown? {
      assert (log + [e])[|log|] == e;
    } else {
      var k :| 0 <= k < |log| && log[k] == Shown(files) && forall i :: k < i < |log| ==> !log[i].Shown?;
      assert (log + [e])[k] == log[k];
      assert forall i :: k < i < |log| ==> (log + [e])[i] == log[i];
    }
  }

  /** What showing `files` next asks of the history: an orderly successor, or a reboot just before. */
  ghost predicate MayShow(log: Log, files: Files) {
    forall i | Adjacent(log + [Shown(files)], i, |log|) :: Orderly(log[i].files, files)
  }

  lemma ShownNext(log: Log, before: Files, after: Files)
    requires ShowsNow(log, before)
    ensures Orderly(before, after) ==> MayShow(log, after)
    ensures MayShow(log + [Rebooted], after)
  {
    var log' := log + [Shown(after)];
    forall i | Adjacent(log', i, |log|) ensures log[i] == Shown(before) {
      assert forall k | 0 <= k < |log| :: log'[k] == log[k];
    }
    var rebooted := log + [Rebooted];
    assert (rebooted + [Shown(after)])[|log|] == Rebooted;
    assert forall i :: !Adjacent(rebooted + [Shown(after)], i, |rebooted|);
  }

  lemma NoteKeepsOrder(log: Log, e: Event)
    requires FenceOutlivesClients(log)
    requires e.Shown? ==> MayShow(log, e.files)
    ensures FenceOutlivesClients(log + [e])
  {
    var log' := log + [e];
    forall i, j | Adjacent(log', i, j) ensures Orderly(log'[i].files, log'[j].files) {
      assert forall k | 0 <= k < |log| :: log'[k] == log[k];
      if j < |log| {
        assert Adjacent(log, i, j);
      }
    }
  }

  lemma NothingYet(files: Files)
    requires CapacityInv(Disk(files, {}))
    ensures DiskInv([], Disk(files, {})) && History([]) && FenceOutlivesClients([]) && MayShow([], files)
  {
  }

  /** `e` was noted somewhere between the two histories. */
  ghost predicate Noted(log: Log, log': Log, e: Event) {
    exists i :: |log| <= i < |log'| && log'[i] == e
  }

  class StateDir {
    var disk: Disk
    var log: Log  // everything that happened so far; the primitives only append to it
    const faults: nat -> Fault
    var operations: nat  // how many there have been

    ghost predicate Safe()
      reads this
    {
      DiskInv(log, disk) && History(log)
    }

    ghost predicate Valid()
      reads this
    {
      Safe() && ShowsNow(log, disk.visible) && FenceOutlivesClients(log)
    }

    /** A call is stopped if and only if one of its operations met a fault. */
    twostate predicate StoppedIff(stopped: bool)
      reads this
    {
      && old(operations) <= operations
      && (stopped <==> exists k | old(operations) <= k < operations :: !faults(k).NoFault?)
    }

    constructor (files: Files, faults: nat -> Fault)
      requires CapacityInv(Disk(files, {}))
      ensures Valid() && disk == Disk(files, {}) && log == [Shown(files)]
      ensures this.faults == faults && operations == 0
    {
      hide DiskInv, History, FenceOutlivesClients;
      NothingYet(files);
      disk := Disk(files, {});
      log := [];
      this.faults := faults;
      operations := 0;
      new;
      Note(Shown(files));
    }

    /** Append one event to the history; it must be true of the directory right now. */
    method Note(e: Event)
      requires Valid() || (e.Shown? && Safe() && FenceOutlivesClients(log) && MayShow(log, e.files))
      requires e.Shown? ==> MayShow(log, e.files)
      requires Admissible(log, disk, e)
      modifies this`log
      ensures Valid() && log == old(log) + [e]
    {
      NoteKeeps(log, disk, e);
      NoteShows(log, disk.visible, e);
      NoteKeepsOrder(log, e);
      log := log + [e];
    }

    /** The sync that makes everything so far durable. */
    method SyncParent()
      requires Valid()
      modifies this`disk
      ensures Valid() && disk == Commit(old(disk)) && Narrows(old(disk), disk)
    {
      CommitNarrows(disk);
      LossKeepsDisk(log, disk, Commit(disk));
      disk := Commit(disk);
    }

    /** Rename or unlink one entry: from now on every process may see it. */
    method Publish(n: Name, v: Option<Record>)
      requires Valid() && Allowed(log, disk, n, v)
      modifies this`disk, this`log
      ensures Valid() && disk == Put(old(disk), n, v) && log == old(log) + [Shown(disk.visible)]
    {
      ghost var after := Put(disk, n, v);
      ChangeKeepsDisk(log, disk, n, v);
      ShownNext(log, disk.visible, after.visible);
      NoteShows(log, after.visible, Shown(after.visible));
      NoteKeepsOrder(log, Shown(after.visible));
      disk := Put(disk, n, v);
      log := log + [Shown(disk.visible)];
    }

    /** What the next operation meets. */
    method Meet() returns (fault: Fault)
      requires Valid()
      modifies this`operations
      ensures Valid() && fault == faults(old(operations)) && operations == old(operations) + 1
    {
      fault := faults(operations);
      operations := operations + 1;
    }

    /** Rename or unlink one entry, then fsync the directory. */
    method Change(n: Name, v: Option<Record>) returns (r: Result<(), Failure>)
      requires Valid() && Allowed(log, disk, n, v)
      modifies this
      ensures Valid() && OnlyShown(old(log), log) && operations == old(operations) + 1
      ensures LeftBy(faults(old(operations)), old(disk), Put(old(disk), n, v), disk)
      ensures StoppedIff(r == Err(Stopped))
      ensures r.Ok? ==> disk == Commit(Put(old(disk), n, v))
      ensures r.Err? ==> r.error == Stopped && Narrows(Put(old(disk), n, v), disk)
    {
      hide Valid;
      var fault := Meet();
      if fault.Refused? {
        return Err(Stopped);
      }
      Publish(n, v);
      r := SyncUnless(fault);
    }

    /** The sync that ends an operation, unless a fault comes before it or instead of its return. */
    method SyncUnless(fault: Fault) returns (r: Result<(), Failure>)
      requires Valid() && !fault.Refused?
      modifies this`disk, this`log
      ensures Valid() && OnlyShown(old(log), log) && Narrows(old(disk), disk)
      ensures LeftBy(fault, old(disk), old(disk), disk)
      ensures r == if fault.NoFault? then Ok(()) else Err(Stopped)
    {
      hide Valid;
      if fault.NoFault? || fault.Killed? {
        SyncParent();
      } else if fault.PowerCut? {
        Reboot(fault.image);
      }
      return if fault.NoFault? then Ok(()) else Err(Stopped);
    }

    method DurableAtomicWrite(n: Name, record: Record) returns (r: Result<(), Failure>)
      requires Valid() && Allowed(log, disk, n, Some(record))
      modifies this
      ensures Valid() && OnlyShown(old(log), log) && operations == old(operations) + 1
      ensures LeftBy(faults(old(operations)), old(disk), Put(old(disk), n, Some(record)), disk)
      ensures StoppedIff(r == Err(Stopped))
      ensures r.Ok? ==> disk == Disk(old(disk.visible)[n := record], {})
      ensures r.Err? ==> r.error == Stopped && Narrows(Put(old(disk), n, Some(record)), disk)
    {
      r := Change(n, Some(record));
    }

    /** An absent entry is still synced, committing a removal whose first sync failed. */
    method DurableUnlink(n: Name) returns (r: Result<bool, Failure>)
      requires Valid() && (n in disk.visible ==> Allowed(log, disk, n, None))
      modifies this
      ensures Valid() && OnlyShown(old(log), log) && operations == old(operations) + 1
      ensures StoppedIff(r == Err(Stopped))
      ensures r.Ok? ==> disk == Disk(old(disk.visible) - {n}, {}) && r.value == (n in old(disk.visible))
      ensures r.Err? ==> r.error == Stopped && Narrows(Put(old(disk), n, None), disk)
    {
      if n in disk.visible {
        var _ :- Change(n, None);
        return Ok(true);
      }
      var _ :- DurableFsyncParent();
      assert disk.visible - {n} == disk.visible;
      return Ok(false);
    }

    method DurableFsyncParent() returns (r: Result<(), Failure>)
      requires Valid()
      modifies this
      ensures Valid() && OnlyShown(old(log), log) && operations == old(operations) + 1
      ensures LeftBy(faults(old(operations)), old(disk), old(disk), disk)
      ensures StoppedIff(r == Err(Stopped))
      ensures r.Ok? ==> disk == Commit(old(disk))
      ensures r.Err? ==> r.error == Stopped && Narrows(old(disk), disk)
    {
      hide Valid;
      var fault := Meet();
      if fault.Refused? {
        return Err(Stopped);
      }
      r := SyncUnless(fault);
    }

    /** Power is lost and comes back: every name shows one of its surviving versions. */
    method Reboot(given: Files)
      requires Valid()
      modifies this`disk, this`log
      ensures Valid() && OnlyShown(old(log), log)
      ensures disk.stale == {} && CrashImage(old(disk), disk.visible)
      ensures CrashImage(old(disk), given) ==> disk.visible == given
      ensures Narrows(old(disk), disk)
    {
      var image := if CrashImage(disk, given) then given else disk.visible;
      CrashNarrows(disk, image);
      ShownNext(log, disk.visible, image);
      Note(Rebooted);
      LossKeepsDisk(log, disk, Disk(image, {}));
      disk := Disk(image, {});
      Note(Shown(image));
    }
  }
}
