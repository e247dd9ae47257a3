/**
 The paired-client store as a live daemon consults it: a cache validated by metadata stamps, read
 through a chain of retained directories while other processes keep changing the files.

 The world is what every directory holds at every instant. One call makes many reads, each at an
 instant of its own, and anything may happen in between.
 */
module AuthorizationCache {
  import opened Base
  import opened StateDirectory

  type DirId = nat

  /** Metadata of one version of one object; `id` is the device and inode. */
  datatype Stamp = Stamp(id: nat, version: nat)

  datatype Entry = Entry(stamp: Stamp, record: Record)

  datatype Dir = Dir(stamp: Stamp, children: map<string, DirId>, files: map<Name, Entry>)

  type World = (nat, DirId) -> Dir

  const ROOT: DirId := 0

  function StampOf(d: Dir, n: Name): Option<Stamp> {
    if n in d.files then Some(d.files[n].stamp) else None
  }

  function Contents(d: Dir): Files {
    map n | n in d.files :: d.files[n].record
  }

  /** The clients the record maps, with neither marker present: what authority is judged on. */
  predicate Grants(d: Dir, identifier: string, key: string) {
    (identifier, key) in Authority(Contents(d))
  }

  // ---------------------------------------------------------------- assumptions on the file system

  /** Stamps tell versions apart: a listing or a record showing one stamp twice did not change in
      between. */
  ghost predicate Stamped(w: World) {
    && (forall t: nat, id: DirId :: w(t, id).stamp.id == id)
    && (forall s: nat, t: nat, id: DirId | s <= t && w(s, id).stamp == w(t, id).stamp :: Unchanged(w, id, s, t))
    && (forall s: nat, t: nat, id: DirId, n: Name | s <= t && SameVersion(w, id, n, s, t) :: EntryUnchanged(w, id, n, s, t))
  }

  predicate SameVersion(w: World, id: DirId, n: Name, s: nat, t: nat) {
    n in w(s, id).files && StampOf(w(s, id), n) == StampOf(w(t, id), n)
  }

  /** The listing stood still; records may still have been rewritten in place. */
  ghost predicate Unchanged(w: World, id: DirId, s: nat, t: nat) {
    forall u: nat | s <= u <= t :: w(u, id).children == w(s, id).children && w(u, id).files.Keys == w(s, id).files.Keys
  }

  ghost predicate EntryUnchanged(w: World, id: DirId, n: Name, s: nat, t: nat) {
    forall u: nat | s <= u <= t :: n in w(u, id).files && n in w(s, id).files && w(u, id).files[n] == w(s, id).files[n]
  }

  lemma SameStamp(w: World, id: DirId, n: Name, s: nat, t: nat)
    requires Stamped(w) && s <= t && n in w(s, id).files
    requires StampOf(w(s, id), n) == StampOf(w(t, id), n)
    ensures EntryUnchanged(w, id, n, s, t)
  {
    assert SameVersion(w, id, n, s, t);
  }

  /** The legacy marker leaves only after the client store. */
  ghost predicate LegacyLiftedLast(w: World) {
    forall t: nat, id: DirId | LegacyLifted(w, id, t) :: ClientsFile !in w(t, id).files
  }

  predicate LegacyLifted(w: World, id: DirId, t: nat) {
    LegacyFence in w(t, id).files && LegacyFence !in w(t + 1, id).files
  }

  /** The order every writer of the pairing state keeps, for both markers, is more than that. */
  lemma WritersLiftLast(w: World)
    requires forall t: nat, id: DirId :: Orderly(Contents(w(t, id)), Contents(w(t + 1, id)))
    ensures LegacyLiftedLast(w)
  {
    forall t: nat, id: DirId | LegacyLifted(w, id, t) ensures ClientsFile !in w(t, id).files {
      assert Orderly(Contents(w(t, id)), Contents(w(t + 1, id)));
      assert LegacyFence in Contents(w(t, id)) && LegacyFence !in Contents(w(t + 1, id));
      assert ClientsFile !in Contents(w(t, id));
    }
  }

  lemma {:induction false} MarkerStays(w: World, id: DirId, s: nat, t: nat)
    requires LegacyLiftedLast(w) && s <= t && LegacyFence in w(s, id).files
    requires forall u: nat | s <= u <= t :: ClientsFile in w(u, id).files
    ensures LegacyFence in w(t, id).files
    decreases t - s
  {
    if s < t {
      assert LegacyLifted(w, id, s) || LegacyFence in w(s + 1, id).files;
      MarkerStays(w, id, s + 1, t);
    }
  }

  // ---------------------------------------------------------------- the consistent reload

  /** The three stamps compared on every check, read one after the other. */
  datatype Stamps = Stamps(clients: Option<Stamp>, legacy: Option<Stamp>, reset: Option<Stamp>)

  /** Instants of one reload pass: stamps before, the record, both markers, stamps after. */
  datatype Pass = Pass(b1: nat, b2: nat, b3: nat, read: nat, legacy: nat, reset: nat, a1: nat, a2: nat, a3: nat)

  predicate InOrder(p: Pass) {
    p.b1 <= p.b2 <= p.b3 <= p.read <= p.legacy <= p.reset <= p.a1 <= p.a2 <= p.a3
  }

  function StampsAt(w: World, id: DirId, t1: nat, t2: nat, t3: nat): Stamps {
    Stamps(StampOf(w(t1, id), ClientsFile), StampOf(w(t2, id), LegacyFence), StampOf(w(t3, id), Fence))
  }

  /** A missing record is an empty store; an unreadable or malformed one is refused. */
  function ReadClients(d: Dir): Option<map<string, string>> {
    ParsedClients(Contents(d))
  }

  predicate MarkerReadable(d: Dir, n: Name) {
    n in d.files ==> d.files[n].record != Unreadable
  }

  /** A reload pass is accepted when nothing it looked at moved underneath it. */
  ghost predicate Accepted(w: World, id: DirId, p: Pass) {
    && InOrder(p)
    && ReadClients(w(p.read, id)).Some?
    && MarkerReadable(w(p.legacy, id), LegacyFence) && MarkerReadable(w(p.reset, id), Fence)
    && StampsAt(w, id, p.b1, p.b2, p.b3) == StampsAt(w, id, p.a1, p.a2, p.a3)
    && StampsAt(w, id, p.b1, p.b2, p.b3) == StampsAt(w, id, p.read, p.legacy, p.reset)
  }

  /** The markers were absent and the client mapped, as far as the pass could tell. */
  predicate PassGrants(w: World, id: DirId, p: Pass, identifier: string, key: string)
    requires ReadClients(w(p.read, id)).Some?
  {
    && LegacyFence !in w(p.legacy, id).files && Fence !in w(p.reset, id).files
    && identifier in ReadClients(w(p.read, id)).value && ReadClients(w(p.read, id)).value[identifier] == key
  }

  /** Where the record reads the same, only the markers and the mapping decide. */
  lemma Mapped(was: Dir, d: Dir, identifier: string, key: string)
    requires ReadClients(was).Some? && (ClientsFile in was.files <==> ClientsFile in d.files)
    requires ClientsFile in d.files ==> d.files[ClientsFile] == was.files[ClientsFile]
    ensures Grants(d, identifier, key) <==>
            && LegacyFence !in d.files && Fence !in d.files
            && identifier in ReadClients(was).value && ReadClients(was).value[identifier] == key
  {
    if ClientsFile in d.files {
      assert Contents(d)[ClientsFile] == Contents(was)[ClientsFile];
    }
    assert ReadClients(d) == ReadClients(was);
  }

  /** An accepted pass that grants was right when it stamped the markers exactly if no legacy marker
      was there then: only that one is looked at out of step. */
  lemma AcceptedPassHasInstant(w: World, id: DirId, p: Pass, identifier: string, key: string)
    requires Stamped(w) && Accepted(w, id, p) && PassGrants(w, id, p, identifier, key)
    ensures Grants(w(p.b3, id), identifier, key) <==> LegacyFence !in w(p.b3, id).files
    ensures LegacyLiftedLast(w) ==> Grants(w(p.b3, id), identifier, key)
  {
    hide Stamped, LegacyLiftedLast;
    assert ClientsFile in w(p.read, id).files;
    SameStamp(w, id, ClientsFile, p.b1, p.a1);
    SameStamp(w, id, ClientsFile, p.b1, p.read);
    if LegacyLiftedLast(w) && LegacyFence in w(p.b3, id).files {
      MarkerStays(w, id, p.b3, p.legacy);
    }
    Mapped(w(p.read, id), w(p.b3, id), identifier, key);
  }

  /** A pass that found a marker, or no such client, was right at the instant it read the record. */
  lemma RefusedPassHasInstant(w: World, id: DirId, p: Pass, identifier: string, key: string)
    requires Stamped(w) && Accepted(w, id, p) && !PassGrants(w, id, p, identifier, key)
    ensures !Grants(w(p.read, id), identifier, key)
  {
    hide Stamped;
    Mapped(w(p.read, id), w(p.read, id), identifier, key);
    if LegacyFence in w(p.legacy, id).files {
      SameStamp(w, id, LegacyFence, p.b2, p.a2);
    }
    if Fence in w(p.reset, id).files {
      SameStamp(w, id, Fence, p.b3, p.a3);
    }
  }

  /** Something the pass had to read was refused: the record, or a marker. */
  predicate PassRefused(w: World, id: DirId, p: Pass) {
    || ReadClients(w(p.read, id)).None?
    || !MarkerReadable(w(p.legacy, id), LegacyFence) || !MarkerReadable(w(p.reset, id), Fence)
  }

  /** An entry showed two different stamps while the pass was made. */
  ghost predicate Moved(w: World, id: DirId, p: Pass) {
    exists n: Name, s: nat, t: nat | p.b1 <= s <= p.a3 && p.b1 <= t <= p.a3 :: StampOf(w(s, id), n) != StampOf(w(t, id), n)
  }

  lemma UnmatchedMeansMoved(w: World, id: DirId, p: Pass)
    requires InOrder(p) && !PassRefused(w, id, p) && !Accepted(w, id, p)
    ensures Moved(w, id, p)
  {
    assert StampOf(w(p.b1, id), ClientsFile) != StampOf(w(p.a1, id), ClientsFile)
        || StampOf(w(p.b2, id), LegacyFence) != StampOf(w(p.a2, id), LegacyFence)
        || StampOf(w(p.b3, id), Fence) != StampOf(w(p.a3, id), Fence)
        || StampOf(w(p.b1, id), ClientsFile) != StampOf(w(p.read, id), ClientsFile)
        || StampOf(w(p.b2, id), LegacyFence) != StampOf(w(p.legacy, id), LegacyFence)
        || StampOf(w(p.b3, id), Fence) != StampOf(w(p.reset, id), Fence);
  }

  /** The directory is the same at every instant in between. */
  ghost predicate Still(w: World, id: DirId, s: nat, t: nat) {
    forall u: nat | s <= u <= t :: w(u, id) == w(s, id)
  }

  /** The record parses and the markers open. */
  predicate Legible(d: Dir) {
    ReadClients(d).Some? && MarkerReadable(d, LegacyFence) && MarkerReadable(d, Fence)
  }

  lemma StillPass(w: World, id: DirId, p: Pass, s: nat, t: nat)
    requires Still(w, id, s, t) && InOrder(p) && s <= p.b1 && p.a3 <= t
    ensures !Moved(w, id, p) && (PassRefused(w, id, p) <==> !Legible(w(s, id)))
  {
  }

  /** A directory that grants anything can be read. */
  lemma GrantsMeansLegible(d: Dir, identifier: string, key: string)
    requires Grants(d, identifier, key)
    ensures Legible(d)
  {
    assert Fence in d.files <==> Fence in Contents(d);
    assert LegacyFence in d.files <==> LegacyFence in Contents(d);
  }

  /** Over a directory that stands still, the cached stamps being the present ones makes the cached
      decision the present one, however old the pass. */
  lemma StillKept(w: World, id: DirId, p: Pass, t: nat, t1: nat, t2: nat, t3: nat, identifier: string, key: string)
    requires Stamped(w) && Accepted(w, id, p) && p.a3 <= t <= t1 && w(t1, id) == w(t2, id) == w(t3, id) == w(t, id)
    requires StampsAt(w, id, t1, t2, t3) == StampsAt(w, id, p.read, p.legacy, p.reset)
    ensures Grants(w(t, id), identifier, key) <==> PassGrants(w, id, p, identifier, key)
  {
    hide Stamped;
    if ClientsFile in w(p.read, id).files {
      SameStamp(w, id, ClientsFile, p.read, t1);
    }
    Mapped(w(p.read, id), w(t, id), identifier, key);
  }

  // ---------------------------------------------------------------- the retained chain

  /** One retained directory and the stamp it had when the chain was taken. */
  datatype Link = Link(id: DirId, stamp: Stamp)

  /** When each link was stamped, and when its name was seen in the directory above. */
  datatype Taken = Taken(stamped: nat, linked: nat)

  predicate StampSeen(w: World, chain: seq<Link>, i: nat, t: nat)
    requires i < |chain|
  {
    w(t, chain[i].id).stamp == chain[i].stamp
  }

  predicate NameSeen(w: World, path: seq<string>, chain: seq<Link>, i: nat, t: nat)
    requires 0 < i < |chain| && i <= |path|
  {
    path[i - 1] in w(t, chain[i - 1].id).children && w(t, chain[i - 1].id).children[path[i - 1]] == chain[i].id
  }

  predicate LinkTaken(w: World, path: seq<string>, chain: seq<Link>, taken: seq<Taken>, i: nat, start: nat, now: nat)
    requires i < |chain| && |chain| == |taken| <= |path| + 1
  {
    && start <= taken[i].stamped <= now && StampSeen(w, chain, i, taken[i].stamped)
    && (0 < i ==>
          && taken[i - 1].stamped <= taken[i].linked <= now && start <= taken[i].linked
          && NameSeen(w, path, chain, i, taken[i].linked))
  }

  ghost predicate WalkedPart(w: World, path: seq<string>, chain: seq<Link>, taken: seq<Taken>, start: nat, now: nat)
    requires |chain| == |taken| <= |path| + 1
  {
    forall i | 0 <= i < |chain| :: LinkTaken(w, path, chain, taken, i, start, now)
  }

  lemma WalkGrows(w: World, path: seq<string>, chain: seq<Link>, taken: seq<Taken>, start: nat, now: nat,
                  link: Link, at: Taken, later: nat)
    requires |chain| == |taken| <= |path| && WalkedPart(w, path, chain, taken, start, now) && now <= later
    requires LinkTaken(w, path, chain + [link], taken + [at], |chain|, start, later)
    ensures WalkedPart(w, path, chain + [link], taken + [at], start, later)
  {
    forall i | 0 <= i < |chain| ensures LinkTaken(w, path, chain + [link], taken + [at], i, start, later) {
      assert LinkTaken(w, path, chain, taken, i, start, now);
    }
  }

  /** The chain is what a walk down `path` saw: links top-down, each name read after its parent's stamp. */
  ghost predicate Walked(w: World, path: seq<string>, chain: seq<Link>, taken: seq<Taken>, start: nat, now: nat) {
    && |chain| == |taken| == |path| + 1
    && chain[0].id == ROOT
    && WalkedPart(w, path, chain, taken, start, now)
  }

  /** Following the configured names at one instant ends at the chain's directories. */
  ghost predicate Resolves(w: World, path: seq<string>, chain: seq<Link>, t: nat)
    requires |chain| == |path| + 1
  {
    forall i | 0 < i < |chain| :: NameSeen(w, path, chain, i, t)
  }

  /** Every retained stamp, and every name, was seen again between `start` and `now`. */
  ghost predicate SeenAgain(w: World, path: seq<string>, chain: seq<Link>, seen: seq<Taken>, start: nat, now: nat)
    requires |chain| == |path| + 1
  {
    && |seen| == |chain|
    && (forall i | 0 <= i < |chain| :: start <= seen[i].stamped <= now && StampSeen(w, chain, i, seen[i].stamped))
    && (forall i | 0 < i < |chain| :: start <= seen[i].linked <= now && NameSeen(w, path, chain, i, seen[i].linked))
  }

  /** No retained directory, and no name that leads to it, changes all the while. */
  ghost predicate Unmoved(w: World, path: seq<string>, chain: seq<Link>, start: nat, till: nat)
    requires |chain| == |path| + 1
  {
    forall i, t: nat | 0 <= i < |chain| && start <= t <= till ::
      StampSeen(w, chain, i, t) && (0 < i ==> NameSeen(w, path, chain, i, t))
  }

  ghost predicate Elsewhere(w: World, path: seq<string>, chain: seq<Link>, i: nat, start: nat, now: nat)
    requires 0 < i < |chain| && i <= |path|
  {
    forall t: nat | start <= t <= now :: !NameSeen(w, path, chain, i, t)
  }

  /** Some component of the path names something other than the retained directory all the while. */
  ghost predicate Substituted(w: World, path: seq<string>, chain: seq<Link>, start: nat, now: nat)
    requires |chain| == |path| + 1
  {
    exists i :: 0 < i < |chain| && Elsewhere(w, path, chain, i, start, now)
  }

  lemma WalkedWithin(w: World, path: seq<string>, chain: seq<Link>, taken: seq<Taken>, start: nat, now: nat, earlier: nat, later: nat)
    requires Walked(w, path, chain, taken, start, now) && earlier <= start && now <= later
    ensures Walked(w, path, chain, taken, earlier, later)
  {
    forall i | 0 <= i < |chain| ensures LinkTaken(w, path, chain, taken, i, earlier, later) {
      assert LinkTaken(w, path, chain, taken, i, start, now);
    }
  }

  /** A walk that met the retained directories shows that none of them was substituted throughout. */
  lemma WalkedMeansNamed(w: World, path: seq<string>, chain: seq<Link>, met: seq<Link>, taken: seq<Taken>, start: nat, now: nat)
    requires Walked(w, path, met, taken, start, now) && |chain| == |met|
    requires forall i | 0 <= i < |chain| :: met[i].id == chain[i].id
    ensures Walked(w, path, met, taken, 0, now)
    ensures !Substituted(w, path, chain, start, now)
  {
    WalkedWithin(w, path, met, taken, start, now, 0, now);
    forall i | 0 < i < |chain| ensures !Elsewhere(w, path, chain, i, start, now) {
      assert LinkTaken(w, path, met, taken, i, start, now);
      assert NameSeen(w, path, chain, i, taken[i].linked);
    }
  }

  /** When every retained stamp is seen again, nothing on the path moved since the walk. */
  lemma CurrentChainResolves(w: World, path: seq<string>, chain: seq<Link>, taken: seq<Taken>, seen: seq<Taken>, t: nat, now: nat)
    requires Stamped(w) && Walked(w, path, chain, taken, 0, t) && SeenAgain(w, path, chain, seen, t, now)
    ensures Resolves(w, path, chain, t)
    ensures forall i | 0 <= i < |chain| :: Unchanged(w, chain[i].id, taken[i].stamped, seen[i].stamped)
  {
    forall i | 0 <= i < |chain| ensures Unchanged(w, chain[i].id, taken[i].stamped, seen[i].stamped) {
      assert LinkTaken(w, path, chain, taken, i, 0, t) && StampSeen(w, chain, i, seen[i].stamped);
    }
    forall i | 0 < i < |chain| ensures NameSeen(w, path, chain, i, t) {
      assert LinkTaken(w, path, chain, taken, i, 0, t) && LinkTaken(w, path, chain, taken, i - 1, 0, t);
      assert Unchanged(w, chain[i - 1].id, taken[i - 1].stamped, seen[i - 1].stamped);
    }
  }

  // ---------------------------------------------------------------- the decision

  /** An accepted pass over the chain's last directory, made after that directory was stamped. */
  ghost predicate Backed(w: World, path: seq<string>, chain: seq<Link>, taken: seq<Taken>, p: Pass, now: nat)
    requires |chain| == |taken| == |path| + 1
  {
    && taken[|path|].stamped <= p.b1 && p.a3 <= now
    && Accepted(w, chain[|path|].id, p)
  }

  /** What an accepted pass saw stays the truth while the listing and the record's stamp stand still. */
  lemma UnmovedListing(w: World, id: DirId, p: Pass, from: nat, till: nat, t: nat, t1: nat, t2: nat, t3: nat,
                       identifier: string, key: string)
    requires Stamped(w) && Accepted(w, id, p) && Unchanged(w, id, from, till)
    requires from <= p.b1 && p.a3 <= t <= till && t <= t1
    requires StampsAt(w, id, t1, t2, t3) == StampsAt(w, id, p.read, p.legacy, p.reset)
    ensures Grants(w(t, id), identifier, key) <==> PassGrants(w, id, p, identifier, key)
  {
    hide Stamped;
    if ClientsFile in w(p.read, id).files {
      SameStamp(w, id, ClientsFile, p.read, t1);
    }
    SameNames(w, id, p, from, till, t);
    Mapped(w(p.read, id), w(t, id), identifier, key);
  }

  lemma SameNames(w: World, id: DirId, p: Pass, from: nat, till: nat, t: nat)
    requires InOrder(p) && Unchanged(w, id, from, till) && from <= p.b1 && p.a3 <= t <= till
    ensures w(t, id).files.Keys == w(p.read, id).files.Keys == w(p.legacy, id).files.Keys == w(p.reset, id).files.Keys
  {
  }

  /** On the cached path no discipline is needed: when the call began the path led to the retained
      directory, and the client was mapped there with no marker present exactly if the cache says so. */
  lemma CachedDecisionIsCurrent(w: World, path: seq<string>, chain: seq<Link>, taken: seq<Taken>, p: Pass, seen: seq<Taken>,
                                t: nat, t0: nat, t1: nat, t2: nat, t3: nat, identifier: string, key: string)
    requires Stamped(w) && Walked(w, path, chain, taken, 0, t) && Backed(w, path, chain, taken, p, t)
    requires t <= t0 <= t1 && SeenAgain(w, path, chain, seen, t, t0)
    requires StampsAt(w, chain[|path|].id, t1, t2, t3) == StampsAt(w, chain[|path|].id, p.read, p.legacy, p.reset)
    ensures Resolves(w, path, chain, t)
    ensures Grants(w(t, chain[|path|].id), identifier, key) <==> PassGrants(w, chain[|path|].id, p, identifier, key)
  {
    CurrentChainResolves(w, path, chain, taken, seen, t, t0);
    assert Unchanged(w, chain[|path|].id, taken[|path|].stamped, seen[|path|].stamped);
    UnmovedListing(w, chain[|path|].id, p, taken[|path|].stamped, seen[|path|].stamped, t, t1, t2, t3, identifier, key);
  }

  predicate Unmarked(d: Dir) {
    Fence !in d.files && LegacyFence !in d.files
  }

  /** A mapping kept from any accepted pass of the same directory, perhaps one older than the chain: an
      answer it grants was right when the call began exactly if no marker stood where the chain was taken. */
  lemma KeptMappingIsCurrentIff(w: World, path: seq<string>, chain: seq<Link>, taken: seq<Taken>, p: Pass, seen: seq<Taken>,
                                t: nat, t0: nat, t1: nat, t2: nat, t3: nat, identifier: string, key: string)
    requires Stamped(w) && Walked(w, path, chain, taken, 0, t) && Accepted(w, chain[|path|].id, p) && p.a3 <= t
    requires t <= t0 <= t1 && SeenAgain(w, path, chain, seen, t, t0)
    requires StampsAt(w, chain[|path|].id, t1, t2, t3) == StampsAt(w, chain[|path|].id, p.read, p.legacy, p.reset)
    requires PassGrants(w, chain[|path|].id, p, identifier, key)
    ensures Grants(w(t, chain[|path|].id), identifier, key) <==> Unmarked(w(taken[|path|].stamped, chain[|path|].id))
  {
    var id, from, till := chain[|path|].id, taken[|path|].stamped, seen[|path|].stamped;
    CurrentChainResolves(w, path, chain, taken, seen, t, t0);
    assert Unchanged(w, id, from, till) && LinkTaken(w, path, chain, taken, |path|, 0, t);
    KeptRecord(w, id, p, t, t1, t2, t3, identifier, key);
    assert w(t, id).files.Keys == w(from, id).files.Keys;
  }

  /** The record the pass read, with its stamp seen again later, is the record in between. */
  lemma KeptRecord(w: World, id: DirId, p: Pass, t: nat, t1: nat, t2: nat, t3: nat, identifier: string, key: string)
    requires Stamped(w) && Accepted(w, id, p) && PassGrants(w, id, p, identifier, key) && p.a3 <= t <= t1
    requires StampsAt(w, id, t1, t2, t3) == StampsAt(w, id, p.read, p.legacy, p.reset)
    ensures Grants(w(t, id), identifier, key) <==> Unmarked(w(t, id))
  {
    hide Stamped;
    assert ClientsFile in w(p.read, id).files;
    SameStamp(w, id, ClientsFile, p.read, t1);
    Mapped(w(p.read, id), w(t, id), identifier, key);
  }

  /** A component that names something else all the while does so in any part of it. */
  lemma SubstitutedWithin(w: World, path: seq<string>, chain: seq<Link>, start: nat, now: nat, from: nat, till: nat)
    requires |chain| == |path| + 1 && Substituted(w, path, chain, start, now) && start <= from && till <= now
    ensures Substituted(w, path, chain, from, till)
  {
    var i :| 0 < i < |chain| && Elsewhere(w, path, chain, i, start, now);
    assert Elsewhere(w, path, chain, i, from, till);
  }

  lemma SeenMeansNamed(w: World, path: seq<string>, chain: seq<Link>, seen: seq<Taken>, start: nat, now: nat)
    requires |chain| == |path| + 1 && SeenAgain(w, path, chain, seen, start, now)
    ensures !Substituted(w, path, chain, start, now)
  {
    forall i | 0 < i < |chain| ensures !Elsewhere(w, path, chain, i, start, now) {
      assert NameSeen(w, path, chain, i, seen[i].linked);
    }
  }

  /** How one refresh came by its answer: no directory at all, a failure, a reload,
      or stamps that all agreed. */
  datatype Check = Empty | Failed | Reloaded | Compared(seen: seq<Taken>, t0: nat, t1: nat, t2: nat, t3: nat)

  /** Every retained directory was seen again, and then the three record stamps the cache holds. */
  ghost predicate Agreed(w: World, path: seq<string>, chain: seq<Link>, check: Check, stamps: Stamps, start: nat, now: nat)
    requires |chain| == |path| + 1 && check.Compared?
  {
    && start <= check.t0 <= check.t1 <= check.t2 <= check.t3 <= now
    && (Stamped(w) ==> SeenAgain(w, path, chain, check.seen, start, check.t0))
    && stamps == StampsAt(w, chain[|path|].id, check.t1, check.t2, check.t3)
  }

  datatype Trouble = NoDirectory | Refused

  function Ids(chain: seq<Link>): (ids: seq<DirId>)
    ensures |ids| == |chain| && forall i | 0 <= i < |chain| :: ids[i] == chain[i].id
  {
    seq(|chain|, i requires 0 <= i < |chain| => chain[i].id)
  }

  const NoStamps := Stamps(None, None, None)

  lemma UnmovedWithin(w: World, path: seq<string>, chain: seq<Link>, start: nat, till: nat)
    requires |chain| == |path| + 1
    ensures forall later: nat | till <= later && Unmoved(w, path, chain, start, later) :: Unmoved(w, path, chain, start, till)
  {
  }

  lemma SameAtEach(w: World, id: DirId, t1: nat, t2: nat, t3: nat, s: Stamps)
    requires StampsAt(w, id, t1, t1, t1) == s && StampsAt(w, id, t2, t2, t2) == s && StampsAt(w, id, t3, t3, t3) == s
    ensures StampsAt(w, id, t1, t2, t3) == s
  {
  }

  class PairedClients {
    const world: World           // what other processes make of the file system
    const refuses: (nat, DirId) -> bool  // when validating a directory fails
    const path: seq<string>      // the configured state directory
    var now: nat
    var clients: map<string, string>
    var stamps: Stamps
    var chain: Option<seq<Link>>
    var unsafe: bool
    var closed: bool

    ghost var taken: seq<Taken>
    ghost var loaded: Option<Pass>  // the accepted pass behind the cache

    /** The retained chain is a real walk; what is cached comes from an accepted pass over the directory
        it ends in, perhaps one made before the chain was last taken. */
    ghost predicate Valid()
      reads this
    {
      && (chain.Some? ==> Walked(world, path, chain.value, taken, 0, now))
      && (chain.None? ==> loaded.None?)
      && (loaded.None? ==> clients == map[] && (closed || stamps == NoStamps))
      && (loaded.Some? ==> LoadedFrom(loaded.value))
      && (unsafe || closed ==> chain.None?)
    }

    ghost predicate LoadedFrom(p: Pass)
      requires chain.Some? && |chain.value| == |path| + 1
      reads this
    {
      && Accepted(world, Final(), p) && p.a3 <= now
      && stamps == StampsAt(world, Final(), p.read, p.legacy, p.reset)
      && ReadClients(world(p.read, Final())) == Some(clients)
    }

    /** The pass was made on the chain now retained: the last reload did not fail. */
    ghost predicate Settled()
      reads this
    {
      && chain.Some? && loaded.Some? && |chain.value| == |taken| == |path| + 1
      && Backed(world, path, chain.value, taken, loaded.value, now)
    }

    /** The path leads to `ids`; none of them changes, or is refused, all the while. */
    ghost predicate Quiet(ids: seq<DirId>, start: nat, till: nat) {
      && |ids| == |path| + 1 && ids[0] == ROOT
      && (forall i | 0 <= i < |ids| :: Still(world, ids[i], start, till))
      && (forall i, t: nat | 0 <= i < |ids| && start <= t <= till :: !refuses(t, ids[i]))
      && (forall i | 0 < i < |ids| :: Leads(ids, i, start))
    }

    predicate Leads(ids: seq<DirId>, i: nat, t: nat)
      requires 0 < i < |ids| == |path| + 1
    {
      path[i - 1] in world(t, ids[i - 1]).children && world(t, ids[i - 1]).children[path[i - 1]] == ids[i]
    }

    /** What quiet gives at one instant, for one component. */
    lemma QuietMeans(q: seq<DirId>, start: nat, till: nat, i: nat, t: nat)
      requires Quiet(q, start, till) && i < |q| && start <= t <= till
      ensures !refuses(t, q[i]) && world(t, q[i]) == world(start, q[i])
      ensures i < |path| ==>
                path[i] in world(t, q[i]).children && world(t, q[i]).children[path[i]] == q[i + 1] && !refuses(t, q[i + 1])
    {
      assert Still(world, q[i], start, till) && (i < |path| ==> Leads(q, i + 1, start));
    }

    /** The directory the path leads to stands still from `from` on, and is what it was at the start. */
    lemma QuietEnd(q: seq<DirId>, start: nat, till: nat, from: nat)
      requires Quiet(q, start, till) && start <= from <= till
      ensures |q| == |path| + 1 && Still(world, q[|path|], from, till) && world(from, q[|path|]) == world(start, q[|path|])
    {
      assert Still(world, q[|path|], start, till);
    }

    lemma QuietWithin(ids: seq<DirId>, start: nat, till: nat, from: nat, to: nat)
      requires Quiet(ids, start, till) && start <= from <= to <= till
      ensures Quiet(ids, from, to) && forall i | 0 <= i < |ids| :: world(from, ids[i]) == world(start, ids[i])
    {
      forall i | 0 <= i < |ids| ensures Still(world, ids[i], from, to) && world(from, ids[i]) == world(start, ids[i]) {
        assert Still(world, ids[i], start, till);
      }
      forall i | 0 < i < |ids| ensures Leads(ids, i, from) {
        assert Leads(ids, i, start);
      }
    }

    function Final(): DirId
      requires chain.Some? && |chain.value| == |path| + 1
      reads this`chain
    {
      chain.value[|path|].id
    }

    function Identities(): seq<DirId>
      requires chain.Some?
      reads this`chain
    {
      Ids(chain.value)
    }

    constructor (world: World, path: seq<string>, refuses: (nat, DirId) -> bool)
      ensures Valid() && chain.None? && !unsafe && !closed
      ensures this.world == world && this.path == path && this.refuses == refuses
    {
      this.world, this.path, this.refuses, now := world, path, refuses, 0;
      clients, stamps := map[], NoStamps;
      chain, unsafe, closed := None, false, false;
      taken, loaded := [], None;
    }

    method Close()
      requires Valid()
      modifies this
      ensures Valid() && closed && unsafe == old(unsafe)
    {
      closed, chain := true, None;
      clients, loaded := map[], None;
    }

    /** Time passes before the next system call. */
    method Tick()
      modifies this`now
      ensures now >= old(now)
      ensures old(Valid()) ==> Valid()
    {
      hide Accepted, StampsAt, ReadClients;
      var d: int := *;
      if Valid() && chain.Some? && d > 0 {
        WalkedWithin(world, path, chain.value, taken, 0, now, 0, now + d);
      }
      if d > 0 {
        now := now + d;
      }
    }

    method LstatStamps(id: DirId) returns (s: Stamps, ghost t1: nat, ghost t2: nat, ghost t3: nat)
      modifies this`now
      ensures old(now) <= t1 <= t2 <= t3 <= now
      ensures s == StampsAt(world, id, t1, t2, t3)
      ensures old(Valid()) ==> Valid()
    {
      hide Valid;
      Tick();
      t1 := now;
      var a := StampOf(world(now, id), ClientsFile);
      Tick();
      t2 := now;
      var b := StampOf(world(now, id), LegacyFence);
      Tick();
      t3 := now;
      var c := StampOf(world(now, id), Fence);
      s := Stamps(a, b, c);
    }

    /** Open and validate every component in turn. Validation may refuse any of them. */
    method OpenComponents() returns (r: Result<seq<DirId>, Trouble>)
      modifies this`now
      ensures now >= old(now)
      ensures old(Valid()) ==> Valid()
      ensures r.Ok? ==> |r.value| == |path| + 1 && r.value[0] == ROOT
      ensures forall q | Quiet(q, old(now), now) :: r == Ok(q)
    {
      hide Valid;
      Tick();
      forall q | Quiet(q, old(now), now) ensures !refuses(now, ROOT) {
        QuietMeans(q, old(now), now, 0, now);
      }
      if refuses(now, ROOT) {
        return Err(Refused);
      }
      var ids: seq<DirId> := [ROOT];
      for i := 0 to |path|
        invariant old(Valid()) ==> Valid()
        invariant |ids| == i + 1 && ids[0] == ROOT && now >= old(now)
        invariant forall q | Quiet(q, old(now), now) :: ids == q[..i + 1]
      {
        ghost var before := now;
        Tick();
        forall q | Quiet(q, old(now), now)
          ensures ids == q[..i + 1] && path[i] in world(now, ids[i]).children
          ensures var child := world(now, ids[i]).children[path[i]]; child == q[i + 1] && !refuses(now, child)
        {
          QuietWithin(q, old(now), now, old(now), before);
          assert ids == q[..i + 1];
          assert ids[i] == q[i];
          QuietMeans(q, old(now), now, i, now);
        }
        if path[i] !in world(now, ids[i]).children {
          return Err(NoDirectory);
        }
        var child := world(now, ids[i]).children[path[i]];
        if refuses(now, child) {
          return Err(Refused);
        }
        ids := ids + [child];
        assert forall q | Quiet(q, old(now), now) :: q[..i + 2] == q[..i + 1] + [q[i + 1]];
      }
      assert forall q | Quiet(q, old(now), now) :: q[..|path| + 1] == q;
      return Ok(ids);
    }

    /** Open the path's directories, then stamp them. */
    method OpenChain() returns (r: Result<seq<Link>, Trouble>, ghost when: seq<Taken>)
      modifies this`now
      ensures now >= old(now)
      ensures old(Valid()) ==> Valid()
      ensures r.Ok? ==> Walked(world, path, r.value, when, old(now), now)
      ensures forall q | Quiet(q, old(now), now) :: r.Ok? && Ids(r.value) == q
    {
      hide Valid, Quiet, WalkedPart;
      var found := OpenComponents();
      ghost var met := now;
      if found.Err? {
        return Err(found.error), [];
      }
      r, when := Restamp(found.value);
      if r.Ok? {
        WalkedWithin(world, path, r.value, when, met, now, old(now), now);
      }
      forall q | Quiet(q, old(now), now) ensures r.Ok? && Ids(r.value) == q {
        QuietWithin(q, old(now), now, old(now), met);
        QuietWithin(q, old(now), now, met, now);
        assert Ids(r.value) == q;
      }
    }

    /** Stamp the opened descriptors top-down, checking each against its name. */
    method Restamp(ids: seq<DirId>) returns (r: Result<seq<Link>, Trouble>, ghost when: seq<Taken>)
      requires |ids| == |path| + 1 && ids[0] == ROOT
      modifies this`now
      ensures now >= old(now)
      ensures old(Valid()) ==> Valid()
      ensures r.Ok? ==> Walked(world, path, r.value, when, old(now), now) && Ids(r.value) == ids
      ensures Quiet(ids, old(now), now) ==> r.Ok?
    {
      hide Valid, Quiet;
      when := [];
      ghost var start := now;
      var links: seq<Link> := [];
      for i := 0 to |ids|
        invariant old(Valid()) ==> Valid()
        invariant |links| == |when| == i && now >= start
        invariant forall k | 0 <= k < i :: links[k].id == ids[k]
        invariant WalkedPart(world, path, links, when, start, now)
      {
        ghost var before := now;
        Tick();
        var stamp := world(now, ids[i]).stamp;
        ghost var stamped := now;
        if i > 0 {
          Tick();
          var above := world(now, ids[i - 1]);
          if Quiet(ids, start, now) {
            QuietMeans(ids, start, now, i - 1, now);
          }
          if path[i - 1] !in above.children {
            return Err(NoDirectory), [];
          }
          if above.children[path[i - 1]] != ids[i] {
            return Err(Refused), [];
          }
        }
        var link := Link(ids[i], stamp);
        ghost var at := Taken(stamped, now);
        assert i > 0 ==> links[i - 1].id == ids[i - 1] && LinkTaken(world, path, links, when, i - 1, start, before);
        WalkGrows(world, path, links, when, start, before, link, at, now);
        links, when := links + [link], when + [at];
      }
      return Ok(links), when;
    }

    /** Compare every retained descriptor, and its name in the directory above, with its stamp. */
    method ChainIsCurrent() returns (current: bool, ghost seen: seq<Taken>)
      requires chain.Some? && |chain.value| == |path| + 1
      modifies this`now
      ensures now >= old(now)
      ensures old(Valid()) ==> Valid()
      ensures current && Stamped(world) ==> SeenAgain(world, path, chain.value, seen, old(now), now)
      ensures Unmoved(world, path, chain.value, old(now), now) ==> current
    {
      hide Valid;
      seen := [];
      for i := 0 to |chain.value|
        invariant old(Valid()) ==> Valid()
        invariant |seen| == i && now >= old(now)
        invariant forall k | 0 <= k < i ::
                    old(now) <= seen[k].stamped <= now && StampSeen(world, chain.value, k, seen[k].stamped)
        invariant Stamped(world) ==> forall k | 0 < k < i ::
                    old(now) <= seen[k].linked <= now && NameSeen(world, path, chain.value, k, seen[k].linked)
      {
        Tick();
        assert Unmoved(world, path, chain.value, old(now), now) ==> StampSeen(world, chain.value, i, now);
        if world(now, chain.value[i].id).stamp != chain.value[i].stamp {
          return false, [];
        }
        ghost var stamped := now;
        if i > 0 {
          Tick();
          var above := world(now, chain.value[i - 1].id);
          assert Unmoved(world, path, chain.value, old(now), now) ==>
              StampSeen(world, chain.value, i, now) && NameSeen(world, path, chain.value, i, now);
          if path[i - 1] !in above.children || world(now, above.children[path[i - 1]]).stamp != chain.value[i].stamp {
            return false, [];
          }
        }
        seen := seen + [Taken(stamped, now)];
      }
      return true, seen;
    }

    method MarkUnsafe()
      modifies this
      ensures Valid() && unsafe && closed == old(closed) && now == old(now)
    {
      unsafe := true;
      clients, stamps := map[], NoStamps;
      chain, loaded := None, None;
    }

    /** Rewalk the configured path; a different directory anywhere on it is refused for good. */
    method Revalidate() returns (ok: bool)
      requires Valid() && chain.Some? && !unsafe && !closed
      modifies this
      ensures Valid() && now >= old(now) && !closed
      ensures ok <==> !unsafe
      ensures ok ==> chain.Some? && Identities() == old(Identities())
      ensures ok ==> Walked(world, path, chain.value, taken, old(now), now)
      ensures Substituted(world, path, old(chain.value), old(now), now) ==> !ok
      ensures forall q | Quiet(q, old(now), now) :: ok <==> q == old(Identities())
    {
      var replacement, when := OpenChain();
      if replacement.Err? {
        MarkUnsafe();
        return false;
      }
      if |replacement.value| != |chain.value|
        || exists i | 0 <= i < |chain.value| :: replacement.value[i].id != chain.value[i].id
      {
        MarkUnsafe();
        return false;
      }
      WalkedMeansNamed(world, path, chain.value, replacement.value, when, old(now), now);
      chain, taken := Some(replacement.value), when;
      return true;
    }

    lemma StampedBefore()
      requires Valid() && chain.Some?
      ensures |chain.value| == |taken| == |path| + 1 && taken[|path|].stamped <= now
    {
      assert LinkTaken(world, path, chain.value, taken, |path|, 0, now);
    }

    /** One pass: stamps, the record, both markers, stamps again. Any read may be refused. */
    method ReloadPass() returns (r: Result<bool, Trouble>, ghost p: Pass)
      requires Valid() && chain.Some?
      modifies this`now, this`clients, this`stamps, this`loaded
      ensures Valid() && InOrder(p) && old(now) <= p.b1 && p.a3 <= now
      ensures r.Err? <==> PassRefused(world, Final(), p)
      ensures r == Ok(true) <==> Accepted(world, Final(), p)
      ensures r == Ok(true) ==> Settled() && loaded == Some(p)
      ensures r != Ok(true) ==> clients == old(clients) && stamps == old(stamps) && loaded == old(loaded)
    {
      hide Stamped, ReadClients, StampOf, LinkTaken, WalkedPart, MarkerReadable;
      StampedBefore();
      var before, b1, b2, b3 := LstatStamps(Final());
      Tick();
      ghost var read := now;
      var found := ReadClients(world(now, Final()));
      var readStamp := StampOf(world(now, Final()), ClientsFile);
      if found.None? {
        return Err(Refused), Pass(b1, b2, b3, read, now, now, now, now, now);
      }
      Tick();
      ghost var readLegacy := now;
      var legacy := StampOf(world(now, Final()), LegacyFence);
      if !MarkerReadable(world(now, Final()), LegacyFence) {
        return Err(Refused), Pass(b1, b2, b3, read, readLegacy, now, now, now, now);
      }
      Tick();
      ghost var readReset := now;
      var reset := StampOf(world(now, Final()), Fence);
      if !MarkerReadable(world(now, Final()), Fence) {
        return Err(Refused), Pass(b1, b2, b3, read, readLegacy, readReset, now, now, now);
      }
      var after, a1, a2, a3 := LstatStamps(Final());
      p := Pass(b1, b2, b3, read, readLegacy, readReset, a1, a2, a3);
      if before == after && before == Stamps(readStamp, legacy, reset) {
        clients, stamps := found.value, after;
        loaded := Some(p);
        return Ok(true), p;
      }
      return Ok(false), p;
    }

    /** Up to two passes; continued churn is refused and leaves the cached mapping alone. It fails only
        over something that cannot be read, or when both passes saw something move. */
    method ReloadFromDirectory() returns (ok: bool, ghost first: Pass, ghost second: Pass)
      requires Valid() && chain.Some?
      modifies this`now, this`clients, this`stamps, this`loaded
      ensures Valid() && now >= old(now)
      ensures old(now) <= first.b1 <= second.b1 && InOrder(first) && InOrder(second) && second.a3 <= now
      ensures ok <==> Accepted(world, Final(), first)
                      || (!PassRefused(world, Final(), first) && Accepted(world, Final(), second))
      ensures !ok ==> PassRefused(world, Final(), first)
                      || (&& Moved(world, Final(), first) && first.a3 <= second.b1
                          && (PassRefused(world, Final(), second) || Moved(world, Final(), second)))
      ensures Still(world, Final(), old(now), now) ==> (ok <==> Legible(world(old(now), Final())))
      ensures ok ==> Settled() && old(now) <= loaded.value.b1
      ensures !ok ==> clients == old(clients) && stamps == old(stamps) && loaded == old(loaded)
    {
      hide Accepted, PassRefused, Moved, Still, Legible, Settled;
      ghost var id := Final();
      var r;
      r, first := ReloadPass();
      second := first;
      if r.Ok? && !r.value {
        UnmatchedMeansMoved(world, id, first);
        r, second := ReloadPass();
        if r.Ok? && !r.value {
          UnmatchedMeansMoved(world, id, second);
        }
      }
      if Still(world, id, old(now), now) {
        StillPass(world, id, first, old(now), now);
        StillPass(world, id, second, old(now), now);
      }
      return r.Ok? && r.value, first, second;
    }

    /** Make the cache describe the directory again, reading only stamps when nothing moved. */
    method Refresh() returns (ok: bool, ghost check: Check)
      requires Valid()
      modifies this
      ensures Valid() && now >= old(now) && closed == old(closed)
      ensures old(unsafe) ==> unsafe
      ensures ok <==> !check.Failed?
      ensures old(unsafe) || old(closed) ==> check.Failed?
      ensures check.Reloaded? ==> chain.Some? && Walked(world, path, chain.value, taken, old(now), now)
      ensures check.Reloaded? ==> Settled() && old(now) <= loaded.value.b1
      ensures check.Empty? ==> clients == map[] && chain.None?
      ensures check.Compared? ==>
                && chain.Some? && (chain, taken, loaded, clients) == old((chain, taken, loaded, clients))
                && Agreed(world, path, chain.value, check, stamps, old(now), now)
      ensures old(chain).Some? && chain.Some? ==> Identities() == old(Identities())
      ensures old(chain).Some? && Stamped(world) && Substituted(world, path, old(chain).value, old(now), now) ==>
                check.Failed? && unsafe
      // As long as neither the chain nor the three entries have changed, nothing is opened or read.
      ensures !old(unsafe) && !old(closed) && old(chain).Some? && Unmoved(world, path, old(chain).value, old(now), now)
              && (forall t: nat | old(now) <= t <= now :: StampsAt(world, old(Final()), t, t, t) == old(stamps)) ==>
                check.Compared?
      // Where nothing moves, nothing is refused and all can be read, it does not fail.
      ensures !old(unsafe) && !old(closed) ==>
                forall q | Quiet(q, old(now), now) && (old(chain).Some? ==> q == old(Identities())) ::
                  && !unsafe && chain.Some? && Identities() == q
                  && (Legible(world(old(now), q[|path|])) ==> ok)
    {
      hide Stamped, Accepted, StampsAt, SeenAgain, LinkTaken, StampSeen, NameSeen, Quiet, Legible, Unmoved;
      if closed || unsafe {
        return false, Failed;
      }
      if chain.None? {
        ok, check := FirstLoad();
        return ok, check;
      }
      var current, seen := ChainIsCurrent();
      ghost var t := now;
      UnmovedWithin(world, path, chain.value, old(now), t);
      if current {
        var found, t1, t2, t3 := LstatStamps(Final());
        if forall t: nat | old(now) <= t <= now :: StampsAt(world, Final(), t, t, t) == stamps {
          SameAtEach(world, Final(), t1, t2, t3, stamps);
        }
        if found == stamps {
          if Stamped(world) && Substituted(world, path, chain.value, old(now), now) {
            SubstitutedWithin(world, path, chain.value, old(now), now, old(now), t);
            SeenMeansNamed(world, path, chain.value, seen, old(now), t);
          }
          return true, Compared(seen, t, t1, t2, t3);
        }
      }
      ok := Reload(old(now));
      return ok, if ok then Reloaded else Failed;
    }

    method FirstLoad() returns (ok: bool, ghost check: Check)
      requires Valid() && chain.None? && !closed && !unsafe
      modifies this
      ensures Valid() && now >= old(now) && !closed
      ensures check.Reloaded? ==> chain.Some? && Walked(world, path, chain.value, taken, old(now), now)
      ensures check.Reloaded? ==> Settled() && old(now) <= loaded.value.b1
      ensures check.Empty? ==> clients == map[] && chain.None?
      ensures !check.Compared? && (ok <==> !check.Failed?)
      ensures forall q | Quiet(q, old(now), now) ::
                && !unsafe && chain.Some? && Identities() == q
                && (Legible(world(old(now), q[|path|])) ==> check.Reloaded?)
    {
      hide Quiet, Legible, LinkTaken;
      var found, when := OpenChain();
      if found.Err? {
        assert forall q :: !Quiet(q, old(now), now);
        return found.error.NoDirectory?, if found.error.NoDirectory? then Empty else Failed;
      }
      WalkedWithin(world, path, found.value, when, old(now), now, 0, now);
      chain, taken := Some(found.value), when;
      ghost var walked := now;
      ghost var first, second;
      ok, first, second := ReloadFromDirectory();
      WalkedWithin(world, path, chain.value, taken, old(now), walked, old(now), now);
      forall q | Quiet(q, old(now), now) ensures Ids(found.value) == q && (Legible(world(old(now), q[|path|])) ==> ok) {
        QuietWithin(q, old(now), now, old(now), walked);
        QuietEnd(q, old(now), now, walked);
      }
      return ok, if ok then Reloaded else Failed;
    }

    method Reload(ghost start: nat) returns (ok: bool)
      requires Valid() && chain.Some? && !closed && !unsafe && start <= now
      modifies this
      ensures Valid() && now >= old(now) && !closed
      ensures ok ==> chain.Some? && Walked(world, path, chain.value, taken, start, now)
      ensures ok ==> Settled() && start <= loaded.value.b1
      ensures chain.Some? ==> Identities() == old(Identities())
      ensures Substituted(world, path, old(chain).value, start, now) ==> !ok && unsafe
      ensures Quiet(old(Identities()), start, now) ==>
                !unsafe && chain.Some? && (Legible(world(start, old(Final()))) ==> ok)
    {
      hide Quiet, Legible, LinkTaken, Elsewhere;
      ghost var retained, before := chain.value, now;
      ghost var first, second;
      ok := Revalidate();
      ghost var walked := now;
      if ok {
        ok, first, second := ReloadFromDirectory();
        WalkedWithin(world, path, chain.value, taken, before, walked, start, now);
      }
      if Substituted(world, path, retained, start, now) {
        SubstitutedWithin(world, path, retained, start, now, before, walked);
      }
      if Quiet(Ids(retained), start, now) {
        QuietWithin(Ids(retained), start, now, before, walked);
        QuietEnd(Ids(retained), start, now, walked);
      }
    }

    /** Whether a pair-verified connection remains authorized. The answer is the one the disk gave at
        an instant inside the call. */
    method Authorizes(identifier: string, key: string) returns (ok: bool, ghost check: Check)
      requires Valid()
      modifies this
      ensures Valid() && now >= old(now) && closed == old(closed)
      // A substituted directory denies, now and forever.
      ensures old(unsafe) ==> unsafe
      ensures old(unsafe) || old(closed) ==> !ok
      ensures old(chain).Some? && Stamped(world) && Substituted(world, path, old(chain).value, old(now), now) ==> !ok && unsafe
      ensures old(chain).Some? && chain.Some? ==> Identities() == old(Identities())
      ensures check.Empty? || check.Failed? ==> !ok
      ensures check.Compared? || check.Reloaded? ==> chain.Some?
      // Unchanged stamps: the path led to the retained directory when the call began, and a True answer
      // was right then exactly if no marker stood where the chain was taken. After a reload that did not
      // fail, the answer was right then, whichever it is.
      ensures check.Compared? && Stamped(world) ==> Resolves(world, path, chain.value, old(now))
      ensures check.Compared? && Stamped(world) && ok ==>
                (Grants(world(old(now), Final()), identifier, key) <==> Unmarked(world(taken[|path|].stamped, Final())))
      ensures check.Compared? && Stamped(world) && old(Settled()) ==> (ok <==> Grants(world(old(now), Final()), identifier, key))
      // Where nothing moves and nothing is refused, the answer is the truth, on the first load too.
      ensures Stamped(world) && !old(unsafe) && !old(closed) ==>
                forall q | Quiet(q, old(now), now) && (old(chain).Some? ==> q == old(Identities())) ::
                  !unsafe && (ok <==> Grants(world(old(now), q[|path|]), identifier, key))
      // After a reload: it was made since the call began, a False answer was right when it read the
      // record, and a True one when it stamped the markers exactly if no legacy marker was there then.
      ensures check.Reloaded? ==> Walked(world, path, chain.value, taken, old(now), now) && Settled()
      ensures check.Reloaded? ==> old(now) <= loaded.value.b1 && Accepted(world, Final(), loaded.value) && loaded.value.a3 <= now
      ensures check.Reloaded? && Stamped(world) && !ok ==> !Grants(world(loaded.value.read, Final()), identifier, key)
      ensures check.Reloaded? && Stamped(world) && ok ==>
                var d := world(loaded.value.b3, Final()); Grants(d, identifier, key) <==> LegacyFence !in d.files
      ensures check.Reloaded? && Stamped(world) && ok && LegacyLiftedLast(world) ==>
                Grants(world(loaded.value.b3, Final()), identifier, key)
    {
      hide Stamped, LegacyLiftedLast, SeenAgain, Grants, Resolves, Substituted, Legible, Leads, Still;
      ok, check := Refresh();
      forall q | Quiet(q, old(now), now) && Grants(world(old(now), q[|path|]), identifier, key)
        ensures Legible(world(old(now), q[|path|]))
      {
        GrantsMeansLegible(world(old(now), q[|path|]), identifier, key);
      }
      if !ok {
        return false, check;
      }
      ok := stamps.legacy.None? && stamps.reset.None? && identifier in clients && clients[identifier] == key;
      if check.Reloaded? && Stamped(world) {
        if ok {
          AcceptedPassHasInstant(world, Final(), loaded.value, identifier, key);
        } else {
          RefusedPassHasInstant(world, Final(), loaded.value, identifier, key);
        }
      } else if check.Compared? && Stamped(world) {
        JudgeCompared(check, old(now), ok, identifier, key);
      }
      forall q | Stamped(world) && Quiet(q, old(now), now) && chain.Some? && Identities() == q
        ensures ok <==> Grants(world(old(now), q[|path|]), identifier, key)
      {
        JudgeQuiet(q, check, old(now), ok, identifier, key);
      }
    }

    lemma JudgeQuiet(q: seq<DirId>, check: Check, start: nat, ok: bool, identifier: string, key: string)
      requires Valid() && chain.Some? && Stamped(world) && start <= now && Quiet(q, start, now) && q == Identities()
      requires check.Reloaded? ==> Settled() && start <= loaded.value.b1
      requires !check.Reloaded? ==>
                 && check.Compared? && Agreed(world, path, chain.value, check, stamps, start, now)
                 && (loaded.Some? ==> loaded.value.a3 <= start)
      requires ok <==> stamps.legacy.None? && stamps.reset.None? && identifier in clients && clients[identifier] == key
      ensures ok <==> Grants(world(start, q[|path|]), identifier, key)
    {
      hide Stamped, Grants, SeenAgain, LinkTaken;
      var id := Final();
      QuietEnd(q, start, now, start);
      if loaded.None? {
        NothingGranted(world(start, id), identifier, key);
      } else if check.Reloaded? {
        if ok {
          AcceptedPassHasInstant(world, id, loaded.value, identifier, key);
        } else {
          RefusedPassHasInstant(world, id, loaded.value, identifier, key);
        }
      } else {
        StillKept(world, id, loaded.value, start, check.t1, check.t2, check.t3, identifier, key);
      }
    }

    lemma NothingGranted(d: Dir, identifier: string, key: string)
      requires ClientsFile !in d.files
      ensures !Grants(d, identifier, key)
    {
    }

    lemma JudgeCompared(check: Check, start: nat, ok: bool, identifier: string, key: string)
      requires Valid() && chain.Some? && check.Compared? && Stamped(world) && start <= now
      requires Walked(world, path, chain.value, taken, 0, start) && Agreed(world, path, chain.value, check, stamps, start, now)
      requires loaded.Some? ==> loaded.value.a3 <= start
      requires ok <==> stamps.legacy.None? && stamps.reset.None? && identifier in clients && clients[identifier] == key
      ensures Resolves(world, path, chain.value, start)
      ensures ok ==> (Grants(world(start, Final()), identifier, key) <==> Unmarked(world(taken[|path|].stamped, Final())))
      ensures Settled() ==> (ok <==> Grants(world(start, Final()), identifier, key))
    {
      hide Stamped, SeenAgain, Grants, Resolves;
      CurrentChainResolves(world, path, chain.value, taken, check.seen, start, check.t0);
      if ok {
        KeptMappingIsCurrentIff(world, path, chain.value, taken, loaded.value, check.seen,
                                start, check.t0, check.t1, check.t2, check.t3, identifier, key);
      }
      if Settled() {
        CachedDecisionIsCurrent(world, path, chain.value, taken, loaded.value, check.seen,
                                start, check.t0, check.t1, check.t2, check.t3, identifier, key);
      }
    }
  }

  // ---------------------------------------------------------------- where the cache can be wrong

  const Phone := Entry(Stamp(1, 0), ClientsRecord(map["phone" := "key"]))

  /** One marker or the other is always there, but never the one being looked at. */
  function FlickeringWorld(): World {
    (t: nat, id: DirId) =>
      Dir(Stamp(id, t), map[],
          if t % 2 == 0 then map[ClientsFile := Phone, Fence := Entry(Stamp(2, t), Malformed)]
          else map[ClientsFile := Phone, LegacyFence := Entry(Stamp(3, t), Malformed)])
  }

  lemma FlickeringIsStamped()
    ensures Stamped(FlickeringWorld())
  {
    var w := FlickeringWorld();
    forall s: nat, t: nat, id: DirId, n: Name | s <= t && SameVersion(w, id, n, s, t) ensures EntryUnchanged(w, id, n, s, t) {
      assert n == ClientsFile || s == t;
    }
  }

  /** Writers that lift markers early can have a pass accepted although no instant grants anything. */
  lemma FlickeringMarkersFoolAPass()
    ensures var w, p := FlickeringWorld(), Pass(0, 0, 1, 1, 2, 3, 4, 4, 5);
            && Stamped(w) && Accepted(w, ROOT, p) && PassGrants(w, ROOT, p, "phone", "key")
            && forall t: nat :: !Grants(w(t, ROOT), "phone", "key")
  {
    hide Stamped, Authority, Accepted, PassGrants;
    FlickeringIsStamped();
    FlickeringPassIsAccepted();
    var w := FlickeringWorld();
    forall t: nat ensures !Grants(w(t, ROOT), "phone", "key") {
      MarkedGrantsNothing(w(t, ROOT));
    }
  }

  lemma FlickeringPassIsAccepted()
    ensures var w, p := FlickeringWorld(), Pass(0, 0, 1, 1, 2, 3, 4, 4, 5);
            Accepted(w, ROOT, p) && PassGrants(w, ROOT, p, "phone", "key")
  {
    hide Authority;
    var w, p := FlickeringWorld(), Pass(0, 0, 1, 1, 2, 3, 4, 4, 5);
    assert ReadClients(w(p.read, ROOT)) == Some(map["phone" := "key"]);
  }

  lemma MarkedGrantsNothing(d: Dir)
    requires Fence in d.files || LegacyFence in d.files
    ensures Authority(Contents(d)) == {}
  {
  }

  /** An unreadable fence appears, then the client store is cleared, then the fence is lifted. */
  function ClearedWorld(): World {
    (t: nat, id: DirId) =>
      if t < 10 then Dir(Stamp(id, 0), map[], map[ClientsFile := Phone])
      else if t < 20 then Dir(Stamp(id, 1), map[], map[ClientsFile := Phone, Fence := Entry(Stamp(2, 0), Unreadable)])
      else if t < 30 then Dir(Stamp(id, 2), map[], map[Fence := Entry(Stamp(2, 0), Unreadable)])
      else Dir(Stamp(id, 3), map[], map[])
  }

  lemma ClearedIsStamped()
    ensures Stamped(ClearedWorld())
  {
  }

  lemma ClearedLiftsLast()
    ensures LegacyLiftedLast(ClearedWorld())
  {
  }

  /** Even with writers that keep the order: a reload that failed (here at 12, over the unreadable
      fence) has retaken the chain but kept the old mapping, and the next check can be straddled by
      the clearing. */
  lemma FailedReloadCanGrantLate()
    ensures var w, p := ClearedWorld(), Pass(0, 0, 0, 0, 0, 0, 0, 0, 0);
            var chain := [Link(ROOT, Stamp(ROOT, 1))];
            && Stamped(w) && LegacyLiftedLast(w)
            && Accepted(w, ROOT, p) && PassGrants(w, ROOT, p, "phone", "key")
            && !MarkerReadable(w(12, ROOT), Fence)
            && Walked(w, [], chain, [Taken(12, 12)], 12, 12)
            && SeenAgain(w, [], chain, [Taken(14, 14)], 14, 14)
            && StampsAt(w, ROOT, 16, 17, 31) == StampsAt(w, ROOT, p.read, p.legacy, p.reset)
            && forall t: nat | 14 <= t <= 31 :: !Grants(w(t, ROOT), "phone", "key")
  {
    hide Stamped, LegacyLiftedLast;
    ClearedIsStamped();
    ClearedLiftsLast();
    var w := ClearedWorld();
    assert ReadClients(w(0, ROOT)) == Some(map["phone" := "key"]);
    forall t: nat | 14 <= t <= 31 ensures !Grants(w(t, ROOT), "phone", "key") {
      assert Fence in w(t, ROOT).files || ClientsFile !in w(t, ROOT).files;
    }
  }
}
