/** Moving a folder that vanished at the source into the container (services/folder_reconcile.py). */
module Quarantine {
  import opened CopyTree
  import opened Decimal
  import opened QuarantineNames
  import opened Wrappers

  datatype Item = Folder | Mail(content: int)

  type Disk = map<Path, Item>

  const SYNC_STATE := ".mbsyncstate"

  /** Everything on disk lies in a directory that is on disk too. */
  ghost predicate Rooted(disk: Disk) {
    forall p :: p in disk && p.Child? ==> p.dir in disk && disk[p.dir].Folder?
  }

  /** The path of `q`, below `from`, once `from` has become `to`. */
  function Rebase(q: Path, from: Path, to: Path): Path
    requires Within(q, from)
  {
    if q == from then to else Child(Rebase(q.dir, from, to), q.name)
  }

  lemma {:induction false} RebaseBack(q: Path, from: Path, to: Path)
    requires Within(q, from)
    ensures Within(Rebase(q, from, to), to) && Rebase(Rebase(q, from, to), to, from) == q
  {
    if q != from {
      RebaseBack(q.dir, from, to);
      if Rebase(q, from, to) == to {
        NotBelowItself(Rebase(q.dir, from, to), to);
      }
    }
  }

  /** Nothing lies below a path that is not there. */
  lemma {:induction false} NothingBelow(disk: Disk, at: Path, q: Path)
    requires Rooted(disk) && at !in disk && Within(q, at)
    ensures q !in disk
  {
    if q != at {
      NothingBelow(disk, at, q.dir);
    }
  }

  // ---------------------------------------------------------------------------
  // The move
  // ---------------------------------------------------------------------------

  /** A file of the sync state, at the top of the folder. */
  predicate IsSyncState(q: Path, folder: Path) {
    q.Child? && q.dir == folder && SYNC_STATE <= q.name
  }

  ghost predicate Untouched(before: Disk, after: Disk, source: Path) {
    forall p :: p in before && !Within(p, source) ==> p in after && after[p] == before[p]
  }

  ghost predicate Arrived(before: Disk, after: Disk, source: Path, dest: Path) {
    forall p :: p in before && Within(p, source) ==>
      if IsSyncState(p, source) then Rebase(p, source, dest) !in after
      else Rebase(p, source, dest) in after && after[Rebase(p, source, dest)] == before[p]
  }

  ghost predicate NothingElse(before: Disk, after: Disk, source: Path, dest: Path, container: Path) {
    forall p :: p in after ==>
      || (p in before && !Within(p, source))
      || p == container
      || (Within(p, dest) && Rebase(p, dest, source) in before && !IsSyncState(p, dest))
  }

  /** All of `source` is at `dest` but its sync state, and the rest of the disk is as it was. */
  ghost predicate Quarantined(before: Disk, after: Disk, source: Path, dest: Path, container: Path) {
    && Untouched(before, after, source) && Arrived(before, after, source, dest)
    && NothingElse(before, after, source, dest, container)
  }

  /** `shutil.move` to a path that is free. */
  function Moved(disk: Disk, source: Path, dest: Path): Disk {
    (map p | p in disk && !Within(p, source) :: disk[p]) + Arrivals(disk, source, dest)
  }

  function Arrivals(disk: Disk, source: Path, dest: Path): Disk {
    map p | p in Targets(disk, source, dest) && Within(p, dest) && Rebase(p, dest, source) in disk :: disk[Rebase(p, dest, source)]
  }

  function Targets(disk: Disk, source: Path, dest: Path): set<Path> {
    set q | q in disk && Within(q, source) :: Rebase(q, source, dest)
  }

  lemma ArrivalOf(disk: Disk, source: Path, dest: Path, q: Path)
    requires q in disk && Within(q, source)
    ensures var to := Rebase(q, source, dest); to in Arrivals(disk, source, dest) && Arrivals(disk, source, dest)[to] == disk[q]
  {
    RebaseBack(q, source, dest);
  }

  /** What is below a free path after the move is what was below the source before. */
  lemma MovedRight(disk: Disk, source: Path, dest: Path)
    requires Rooted(disk) && dest !in disk
    ensures Untouched(disk, Moved(disk, source, dest), source)
    ensures forall q :: q in disk && Within(q, source) ==>
              Rebase(q, source, dest) in Moved(disk, source, dest) && Moved(disk, source, dest)[Rebase(q, source, dest)] == disk[q]
    ensures forall p :: p in Moved(disk, source, dest) ==>
              (p in disk && !Within(p, source)) || (Within(p, dest) && Rebase(p, dest, source) in disk)
  {
    forall p | p in disk && !Within(p, source) ensures p !in Arrivals(disk, source, dest) {
      if p in Arrivals(disk, source, dest) {
        NothingBelow(disk, dest, p);
      }
    }
    forall q | q in disk && Within(q, source)
      ensures Rebase(q, source, dest) in Moved(disk, source, dest) && Moved(disk, source, dest)[Rebase(q, source, dest)] == disk[q]
    {
      ArrivalOf(disk, source, dest, q);
    }
  }

  lemma {:induction false} RebasedChild(q: Path, source: Path, dest: Path)
    requires Within(q, source) && q != source
    ensures Rebase(q, source, dest).Child? && Rebase(q, source, dest).dir == Rebase(q.dir, source, dest)
    ensures q.dir == source <==> Rebase(q, source, dest).dir == dest
  {
    RebaseBack(q.dir, source, dest);
    assert Within(dest, dest) && Rebase(dest, dest, source) == source;
  }

  /** Removing the sync state of `dest` is removing what came from the sync state of `source`. */
  lemma SyncStateMoves(q: Path, source: Path, dest: Path)
    requires Within(q, source)
    ensures IsSyncState(q, source) <==> IsSyncState(Rebase(q, source, dest), dest)
  {
    if q != source {
      RebasedChild(q, source, dest);
    } else {
      if IsSyncState(q, source) {
        NotBelowItself(source, q);
      }
      if IsSyncState(dest, dest) {
        NotBelowItself(dest, dest);
      }
    }
  }

  ghost predicate WithoutSyncState(before: Disk, after: Disk, dest: Path) {
    && (forall p :: p in after ==> p in before && !IsSyncState(p, dest))
    && (forall p :: p in before && !IsSyncState(p, dest) ==> p in after && after[p] == before[p])
  }

  lemma MovedAndCleaned(before: Disk, after: Disk, source: Path, dest: Path, container: Path)
    requires Rooted(before) && dest !in before && dest.Child? && dest.dir == container
    requires WithoutSyncState(Moved(before, source, dest), after, dest)
    ensures Quarantined(before, after, source, dest, container)
  {
    MovedRight(before, source, dest);
    forall p | p in before && Within(p, source)
      ensures if IsSyncState(p, source) then Rebase(p, source, dest) !in after
              else Rebase(p, source, dest) in after && after[Rebase(p, source, dest)] == before[p]
    {
      SyncStateMoves(p, source, dest);
    }
    forall p | p in before && !Within(p, source) ensures p in after && after[p] == before[p] {
      if IsSyncState(p, dest) {
        NothingBelow(before, dest, p);
      }
    }
  }

  /** A directory named like sync state, at the top of the folder: `os.remove` cannot remove it. */
  ghost predicate HasSyncDirectory(disk: Disk, folder: Path) {
    exists p :: p in disk && IsSyncState(p, folder) && disk[p].Folder?
  }

  lemma SyncDirectoryMoves(disk: Disk, source: Path, dest: Path)
    requires Rooted(disk) && dest !in disk
    ensures HasSyncDirectory(Moved(disk, source, dest), dest) <==> HasSyncDirectory(disk, source)
  {
    MovedRight(disk, source, dest);
    if HasSyncDirectory(disk, source) {
      var q :| q in disk && IsSyncState(q, source) && disk[q].Folder?;
      SyncStateMoves(q, source, dest);
      assert IsSyncState(Rebase(q, source, dest), dest);
    }
    if HasSyncDirectory(Moved(disk, source, dest), dest) {
      var p :| p in Moved(disk, source, dest) && IsSyncState(p, dest) && Moved(disk, source, dest)[p].Folder?;
      if p in disk && !Within(p, source) {
        NothingBelow(disk, dest, p);
      }
      RebaseBack(p, dest, source);
      SyncStateMoves(Rebase(p, dest, source), source, dest);
      assert IsSyncState(Rebase(p, dest, source), source);
    }
  }

  ghost predicate SomeSyncStateLeft(before: Disk, after: Disk, dest: Path) {
    && (forall p :: p in after ==> p in before && after[p] == before[p])
    && (forall p :: p in before && !IsSyncState(p, dest) ==> p in after)
  }

  /** As `Quarantined`, but for some of the sync state, which may be at the destination still. */
  ghost predicate HalfQuarantined(before: Disk, after: Disk, source: Path, dest: Path, container: Path) {
    && Untouched(before, after, source)
    && (forall p :: p in before && Within(p, source) && !IsSyncState(p, source) ==> Rebase(p, source, dest) in after)
    && (forall p :: p in before && Within(p, source) && Rebase(p, source, dest) in after ==> after[Rebase(p, source, dest)] == before[p])
    && (forall p :: p in after ==>
          (p in before && !Within(p, source)) || p == container || (Within(p, dest) && Rebase(p, dest, source) in before))
  }

  lemma MovedAndHalfCleaned(before: Disk, after: Disk, source: Path, dest: Path, container: Path)
    requires Rooted(before) && dest !in before
    requires SomeSyncStateLeft(Moved(before, source, dest), after, dest)
    ensures HalfQuarantined(before, after, source, dest, container)
  {
    MovedRight(before, source, dest);
    forall p | p in before && Within(p, source) && !IsSyncState(p, source) ensures Rebase(p, source, dest) in after {
      SyncStateMoves(p, source, dest);
    }
    forall p | p in before && !Within(p, source) ensures p in after && after[p] == before[p] {
      if IsSyncState(p, dest) {
        NothingBelow(before, dest, p);
      }
    }
  }

  lemma HalfQuarantinedAnyway(before: Disk, made: Disk, after: Disk, source: Path, dest: Path, container: Path)
    requires Made(before, made, container) && HalfQuarantined(made, after, source, dest, container)
    requires !Within(container, source)
    ensures HalfQuarantined(before, after, source, dest, container)
  {
    forall p | p in after && Within(p, dest) && Rebase(p, dest, source) in made ensures Rebase(p, dest, source) in before {
      RebaseBack(p, dest, source);
    }
  }

  predicate IsDirectory(disk: Disk, p: Path) {
    p in disk && disk[p].Folder?
  }

  /** `os.path.join(home, folder)`, the folder's components one below the other. */
  function Join(home: Path, folder: string): Path
    decreases |folder|
  {
    var i := LastSlash(folder, |folder|);
    if i.None? then Child(home, folder) else Child(Join(home, folder[..i.value]), folder[i.value + 1..])
  }

  function LastSlash(s: string, n: nat): (i: Option<nat>)
    requires n <= |s|
    ensures i.Some? ==> i.value < n && s[i.value] == '/'
  {
    if n == 0 then None else if s[n - 1] == '/' then Some(n - 1) else LastSlash(s, n - 1)
  }

  lemma {:induction false} JoinWithin(home: Path, folder: string)
    ensures Join(home, folder).Child? && Within(Join(home, folder).dir, home)
    decreases |folder|
  {
    var i := LastSlash(folder, |folder|);
    if i.Some? {
      JoinWithin(home, folder[..i.value]);
    }
  }

  /** The one folder of a home that holds a directory right below the home is that directory. */
  lemma OnlyItself(home: Path, folder: string, name: string)
    requires Within(Child(home, name), Join(home, folder))
    ensures Join(home, folder) == Child(home, name)
  {
    JoinWithin(home, folder);
    if Join(home, folder) != Child(home, name) {
      DeeperWithin(home, Join(home, folder));
      DeeperWithin(Join(home, folder).dir, home);
    }
  }

  /** What holds something on disk is a directory on disk. */
  lemma {:induction false} DirectoryAbove(disk: Disk, at: Path, q: Path)
    requires Rooted(disk) && q in disk && q.Child? && Within(q.dir, at)
    ensures IsDirectory(disk, at)
  {
    if q.dir != at {
      DirectoryAbove(disk, at, q.dir);
    }
  }

  ghost predicate Made(before: Disk, made: Disk, container: Path) {
    && (forall p :: p in before ==> p in made && made[p] == before[p])
    && (forall p :: p in made ==> p in before || p == container)
  }

  lemma MadeFirst(before: Disk, made: Disk, source: Path, container: Path)
    requires Rooted(before) && container.Child? && IsDirectory(before, container.dir)
    requires made == if container in before then before else before[container := Folder]
    ensures Rooted(made) && Made(before, made, container)
    ensures !Within(container, source) ==> (HasSyncDirectory(made, source) <==> HasSyncDirectory(before, source))
  {
    assert Within(source, source);
    assert !Within(container, source) ==> !IsSyncState(container, source);
  }

  lemma QuarantinedAnyway(before: Disk, made: Disk, after: Disk, source: Path, dest: Path, container: Path)
    requires Made(before, made, container) && Quarantined(made, after, source, dest, container)
    requires !Within(container, source)
    ensures Quarantined(before, after, source, dest, container)
  {
    forall p | p in after && Within(p, dest) && Rebase(p, dest, source) in made ensures Rebase(p, dest, source) in before {
      RebaseBack(p, dest, source);
    }
  }

  // ---------------------------------------------------------------------------
  // Unused names
  // ---------------------------------------------------------------------------

  function Suffixed(name: string, n: Option<nat>): string {
    name + if n.Some? then CollisionSuffix(n.value) else ""
  }

  lemma SuffixDigits(name: string, n: nat)
    ensures var s := Suffixed(name, Some(n)); |s| == |name| + 3 + |Dec(n)| && s[|name| + 2..|s| - 1] == Dec(n)
  {
  }

  lemma SuffixesDiffer(name: string, m: nat, n: nat)
    requires Suffixed(name, Some(m)) == Suffixed(name, Some(n))
    ensures m == n
  {
    SuffixDigits(name, m);
    SuffixDigits(name, n);
    DecIsInjective(m, n);
  }

  // ---------------------------------------------------------------------------
  // The method
  // ---------------------------------------------------------------------------

  /** `Stuck` is an error that leaves the disk as it was, `Leftover` one after the folder was moved. */
  datatype Outcome = Gone | Quarantine(dest: Path) | Leftover(dest: Path) | Stuck

  /** The folder holds the container, or a file has the container's name. */
  ghost predicate Blocked(disk: Disk, source: Path, container: Path) {
    Within(container, source) || (container in disk && !IsDirectory(disk, container))
  }

  ghost predicate NamesFolder(dest: Path, home: Path, folder: string, when: Stamp) {
    && dest.Child? && dest.dir == Child(home, REMOVED_CONTAINER) && '/' !in dest.name && Tells(dest.name, folder, when)
    && (OriginalFolderName(REMOVED_CONTAINER + "/" + dest.name) == Folded(folder) <==> MatchesName(folder))
  }

  class MailStore {
    var disk: Disk

    /** The numbering loop: it ends, at a name nothing has, the first one from 2 on. */
    method UnusedName(container: Path, name: string) returns (dest: Path, ghost n: Option<nat>)
      ensures dest == Child(container, Suffixed(name, n)) && dest !in disk
      ensures n.None? <==> Child(container, name) !in disk
      ensures n.Some? ==> n.value >= 2 && forall m :: 2 <= m < n.value ==> Child(container, Suffixed(name, Some(m))) in disk
    {
      dest, n := Child(container, name), None;
      assert Suffixed(name, None) == name;
      if dest in disk {
        var k := 2;
        ghost var taken: set<Path> := {};
        while Child(container, name + CollisionSuffix(k)) in disk
          invariant k >= 2 && taken <= disk.Keys
          invariant forall m :: 2 <= m < k ==> Child(container, Suffixed(name, Some(m))) in disk
          invariant forall p :: p in taken ==> exists m :: 2 <= m < k && p == Child(container, Suffixed(name, Some(m)))
          decreases disk.Keys - taken
        {
          forall m | 2 <= m < k && Suffixed(name, Some(m)) == Suffixed(name, Some(k)) ensures false {
            SuffixesDiffer(name, m, k);
          }
          taken := taken + {Child(container, Suffixed(name, Some(k)))};
          k := k + 1;
        }
        dest, n := Child(container, name + CollisionSuffix(k)), Some(k);
      }
    }

    /**
     * `quarantine_folder`: nothing on disk is overwritten, every message of the folder is at the
     * destination, only the sync state at its top is gone, and the name tells which folder it was.
     * A blocked folder stays; one with a directory for sync state is moved, and some of that is left.
     */
    method QuarantineFolder(home: Path, folder: string, when: Stamp) returns (o: Outcome)
      requires Rooted(disk)
      modifies this
      ensures var source, container := Join(home, folder), Child(home, REMOVED_CONTAINER);
              match o
              case Gone => !IsDirectory(old(disk), source) && disk == old(disk)
              case Stuck => IsDirectory(old(disk), source) && Blocked(old(disk), source, container) && disk == old(disk)
              case Quarantine(dest) =>
                && IsDirectory(old(disk), source) && !Blocked(old(disk), source, container) && !HasSyncDirectory(old(disk), source)
                && dest !in old(disk) && NamesFolder(dest, home, folder, when)
                && Quarantined(old(disk), disk, source, dest, container)
              case Leftover(dest) =>
                && IsDirectory(old(disk), source) && !Blocked(old(disk), source, container) && HasSyncDirectory(old(disk), source)
                && dest !in old(disk) && NamesFolder(dest, home, folder, when)
                && HalfQuarantined(old(disk), disk, source, dest, container)
    {
      var source, container := Join(home, folder), Child(home, REMOVED_CONTAINER);
      if source !in disk || !disk[source].Folder? {
        return Gone;
      }
      JoinWithin(home, folder);
      DirectoryAbove(disk, home, source);
      var dest, n := UnusedName(container, QuarantineName(folder, when));
      NameReadsBack(folder, when, n);
      NameIsComponent(folder, when, n);
      ghost var before := disk;
      if container !in disk {
        disk := disk[container := Folder];
      } else if disk[container].Mail? {
        return Stuck;
      }
      if Within(container, source) {
        OnlyItself(home, folder, REMOVED_CONTAINER);
        return Stuck;
      }
      MadeFirst(before, disk, source, container);
      var clean := MoveAndClean(source, dest, before, container);
      return if clean then Quarantine(dest) else Leftover(dest);
    }

    method MoveAndClean(source: Path, dest: Path, ghost before: Disk, ghost container: Path) returns (clean: bool)
      requires Rooted(disk) && Made(before, disk, container) && !Within(container, source)
      requires dest !in disk && dest.Child? && dest.dir == container
      modifies this
      ensures clean <==> !HasSyncDirectory(old(disk), source)
      ensures if clean then Quarantined(before, disk, source, dest, container) else HalfQuarantined(before, disk, source, dest, container)
    {
      ghost var made := disk;
      SyncDirectoryMoves(made, source, dest);
      disk := Moved(disk, source, dest);
      clean := DropSyncState(dest);
      if clean {
        MovedAndCleaned(made, disk, source, dest, container);
        QuarantinedAnyway(before, made, disk, source, dest, container);
      } else {
        MovedAndHalfCleaned(made, disk, source, dest, container);
        HalfQuarantinedAnyway(before, made, disk, source, dest, container);
      }
    }

    /** The sync state goes: it would make a folder of the same name fail when it comes back. */
    method DropSyncState(dest: Path) returns (clean: bool)
      modifies this
      ensures clean <==> !HasSyncDirectory(old(disk), dest)
      ensures if clean then WithoutSyncState(old(disk), disk, dest) else SomeSyncStateLeft(old(disk), disk, dest)
    {
      ghost var before := disk;
      var todo := set p | p in disk && p.Child? && p.dir == dest;
      while todo != {}
        invariant SomeSyncStateLeft(before, disk, dest)
        invariant forall p :: p in disk && IsSyncState(p, dest) ==> p in todo
        invariant forall p :: p in todo ==> p in disk
        invariant forall p :: p in before && p !in disk ==> before[p].Mail?
        decreases |todo|
      {
        var leftover := Choose(todo);
        todo := todo - {leftover};
        if leftover.Child? && leftover.dir == dest && SYNC_STATE <= leftover.name {
          if disk[leftover].Folder? {
            assert IsSyncState(leftover, dest);
            return false;
          }
          disk := disk - {leftover};
        }
      }
      return true;
    }
  }
}
