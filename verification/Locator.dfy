/**
 * Finding an indexed message on disk again: `_walk_maildir`, `maildir_folder_bases` and
 * `maildir_filename_prefix` (services/index_service.py), `_locate_live_file`
 * (services/preview_service.py).
 */
module Locator {
  import opened CopyTree
  import opened Quarantine
  import opened Wrappers

  // ---------------------------------------------------------------------------
  // Folders and their directories
  // ---------------------------------------------------------------------------

  const INBOX := "INBOX"

  /** A name a directory can have. */
  predicate IsName(s: string) {
    s != "" && '/' !in s
  }

  /** `dir` lies below `home`, through directories with proper names. */
  predicate Below(dir: Path, home: Path) {
    dir != home && dir.Child? && IsName(dir.name) && (dir.dir == home || Below(dir.dir, home))
  }

  /** `os.path.relpath`. */
  function RelPath(dir: Path, home: Path): string
    requires Below(dir, home)
  {
    if dir.dir == home then dir.name else RelPath(dir.dir, home) + "/" + dir.name
  }

  /** The folder `_walk_maildir` yields for the files in `dir/cur` and `dir/new`. */
  function FolderOf(dir: Path, home: Path): string
    requires dir == home || Below(dir, home)
  {
    if dir == home then INBOX else RelPath(dir, home)
  }

  /** `maildir_folder_bases`. */
  function FolderBases(home: Path, folder: string): seq<Path> {
    if folder == INBOX then [Child(home, INBOX), home] else [Join(home, folder)]
  }

  lemma {:induction false} NoSlash(s: string, n: nat)
    requires n <= |s| && '/' !in s
    ensures LastSlash(s, n) == None
  {
    if n > 0 {
      assert s[n - 1] in s;
      NoSlash(s, n - 1);
    }
  }

  lemma {:induction false} SlashBefore(a: string, name: string, n: nat)
    requires '/' !in name && |a| < n <= |a| + 1 + |name|
    ensures LastSlash(a + "/" + name, n) == Some(|a|)
  {
    if n > |a| + 1 {
      assert (a + "/" + name)[n - 1] == name[n - |a| - 2];
      SlashBefore(a, name, n - 1);
    }
  }

  lemma JoinStep(home: Path, rel: string, name: string)
    requires '/' !in name
    ensures Join(home, rel + "/" + name) == Child(Join(home, rel), name)
  {
    var s := rel + "/" + name;
    SlashBefore(rel, name, |s|);
    assert s[..|rel|] == rel && s[|rel| + 1..] == name;
  }

  /** Joining undoes `relpath`. */
  lemma {:induction false} JoinRelPath(dir: Path, home: Path)
    requires Below(dir, home)
    ensures Join(home, RelPath(dir, home)) == dir
  {
    if dir.dir == home {
      NoSlash(dir.name, |dir.name|);
    } else {
      JoinRelPath(dir.dir, home);
      JoinStep(home, RelPath(dir.dir, home), dir.name);
    }
  }

  /**
   * The bases of a folder are exactly the directories whose files the walk attributes to it; only
   * for INBOX there are two.
   */
  lemma BasesInvertWalk(home: Path, dir: Path, walked: Path)
    requires dir == home || Below(dir, home)
    requires walked == home || Below(walked, home)
    ensures dir in FolderBases(home, FolderOf(walked, home)) <==> FolderOf(dir, home) == FolderOf(walked, home)
  {
    if dir != home {
      JoinRelPath(dir, home);
    }
    if walked != home {
      JoinRelPath(walked, home);
    }
    NoSlash(INBOX, |INBOX|);
    assert Join(home, INBOX) == Child(home, INBOX);
    InboxIsName(home);
  }

  lemma InboxIsName(home: Path)
    ensures Child(home, INBOX) != home ==> Below(Child(home, INBOX), home) && RelPath(Child(home, INBOX), home) == INBOX
    ensures Child(home, INBOX) != home
  {
    NotBelowItself(home, Child(home, INBOX));
  }

  // ---------------------------------------------------------------------------
  // File names and flags
  // ---------------------------------------------------------------------------

  const INFO := ":2,"

  predicate InfoHere(s: string, j: nat) {
    j + 3 <= |s| && s[j] == ':' && s[j + 1] == '2' && s[j + 2] == ','
  }

  /** Where ":2," first stands in the name. */
  function InfoAt(s: string, from: nat): (i: Option<nat>)
    requires from <= |s|
    ensures i.Some? ==> from <= i.value && InfoHere(s, i.value) && forall j :: from <= j < i.value ==> !InfoHere(s, j)
    ensures i.None? ==> forall j :: from <= j ==> !InfoHere(s, j)
    decreases |s| - from
  {
    if InfoHere(s, from) then Some(from) else if from == |s| then None else InfoAt(s, from + 1)
  }

  /** `maildir_filename_prefix`. */
  function FilenamePrefix(name: string): string {
    var i := InfoAt(name, 0);
    if i.Some? then name[..i.value] + INFO else name
  }

  predicate HasInfo(name: string) {
    InfoAt(name, 0).Some?
  }

  /** The same name with other flags: what a read, a reply or a flag renames a file to. */
  predicate Reflagged(a: string, b: string) {
    HasInfo(a) && HasInfo(b) && a[..InfoAt(a, 0).value] == b[..InfoAt(b, 0).value]
  }

  lemma PrefixParts(name: string)
    requires HasInfo(name)
    ensures var i := InfoAt(name, 0).value;
            FilenamePrefix(name) == name[..i + 3] && FilenamePrefix(name)[..i] == name[..i]
  {
  }

  lemma PrefixHasInfo(name: string)
    requires HasInfo(name)
    ensures InfoAt(FilenamePrefix(name), 0) == InfoAt(name, 0)
  {
    var i, p := InfoAt(name, 0).value, FilenamePrefix(name);
    PrefixParts(name);
    assert InfoHere(p, i);
    forall j | 0 <= j < i ensures !InfoHere(p, j) {
      assert !InfoHere(name, j);
    }
  }

  /** Two names have the same prefix exactly when they differ in their flags at most. */
  lemma SamePrefix(a: string, b: string)
    ensures FilenamePrefix(a) == FilenamePrefix(b) <==> a == b || Reflagged(a, b)
  {
    if HasInfo(a) {
      PrefixHasInfo(a);
      PrefixParts(a);
    }
    if HasInfo(b) {
      PrefixHasInfo(b);
      PrefixParts(b);
    }
  }

  /** The first flags a message gets, on a name that had no place for flags, are not tolerated. */
  lemma FirstFlagsLoseTrack(name: string, flags: string)
    requires !HasInfo(name)
    ensures FilenamePrefix(name + INFO + flags) != FilenamePrefix(name)
  {
    assert InfoHere(name + INFO + flags, |name|);
    SamePrefix(name + INFO + flags, name);
  }

  // ---------------------------------------------------------------------------
  // The search
  // ---------------------------------------------------------------------------

  const CUR := "cur"
  const NEW := "new"

  /** `p` is a file in `cur` or `new` of one of the bases. */
  predicate FileOf(bases: seq<Path>, p: Path) {
    && p.Child? && p.dir.Child? && (p.dir.name == CUR || p.dir.name == NEW)
    && p.dir.dir in bases
  }

  /** The directories in the order they are searched. */
  function SearchDirs(bases: seq<Path>): seq<Path> {
    if bases == [] then [] else [Child(bases[0], CUR), Child(bases[0], NEW)] + SearchDirs(bases[1..])
  }

  /** The place number `r` of the search: base by base, `cur` before `new`. */
  function Slot(bases: seq<Path>, r: nat): Path
    requires r < 2 * |bases|
  {
    Child(bases[r / 2], if r % 2 == 0 then CUR else NEW)
  }

  lemma {:induction false} SearchDirsAre(bases: seq<Path>)
    ensures |SearchDirs(bases)| == 2 * |bases| && forall r :: 0 <= r < 2 * |bases| ==> SearchDirs(bases)[r] == Slot(bases, r)
  {
    if bases != [] {
      SearchDirsAre(bases[1..]);
      forall r | 2 <= r < 2 * |bases| ensures SearchDirs(bases)[r] == Slot(bases, r) {
        assert SearchDirs(bases)[r] == SearchDirs(bases[1..])[r - 2] == Slot(bases[1..], r - 2);
      }
    }
  }

  /** None of the first `n` places has a file of that name. */
  ghost predicate NoNameBefore(disk: Disk, bases: seq<Path>, n: nat, filename: string)
    requires n <= 2 * |bases|
  {
    forall q {:trigger Slot(bases, q)} :: 0 <= q < n ==> Child(Slot(bases, q), filename) !in disk
  }

  ghost predicate NoPrefixIn(disk: Disk, dir: Path, prefix: string) {
    forall p :: p in disk && p.Child? && p.dir == dir ==> FilenamePrefix(p.name) != prefix
  }

  /** None of the first `n` places has a file with the prefix. */
  ghost predicate NoPrefixBefore(disk: Disk, bases: seq<Path>, n: nat, prefix: string)
    requires n <= 2 * |bases|
  {
    forall q {:trigger Slot(bases, q)} :: 0 <= q < n ==> NoPrefixIn(disk, Slot(bases, q), prefix)
  }

  /** `found` has the name, and no place searched earlier has a file of that name. */
  ghost predicate FirstByName(disk: Disk, bases: seq<Path>, filename: string, found: Path, r: nat) {
    && r < 2 * |bases| && found == Child(Slot(bases, r), filename) && found in disk
    && NoNameBefore(disk, bases, r, filename)
  }

  /** `found` has the prefix, no place has the name, and none searched earlier a file with the prefix. */
  ghost predicate FirstByPrefix(disk: Disk, bases: seq<Path>, filename: string, found: Path, r: nat) {
    && r < 2 * |bases| && found in disk && found.Child? && found.dir == Slot(bases, r)
    && FilenamePrefix(found.name) == FilenamePrefix(filename)
    && NoNameBefore(disk, bases, 2 * |bases|, filename) && NoPrefixBefore(disk, bases, r, FilenamePrefix(filename))
  }

  lemma {:induction false} SearchDirsComplete(bases: seq<Path>, p: Path)
    requires p.Child?
    ensures p.dir in SearchDirs(bases) <==> FileOf(bases, p)
  {
    if bases != [] {
      SearchDirsComplete(bases[1..], p);
    }
  }

  /** `_locate_live_file`: by the recorded name first, then by its prefix. */
  method LocateLiveFile(disk: Disk, home: Path, folder: string, filename: string) returns (found: Option<Path>)
    ensures var bases := FolderBases(home, folder);
            && (found.Some? ==> found.value in disk && FileOf(bases, found.value)
                                && FilenamePrefix(found.value.name) == FilenamePrefix(filename))
            && (found.None? ==> forall p :: p in disk && FileOf(bases, p) ==> FilenamePrefix(p.name) != FilenamePrefix(filename))
            && ((exists p :: p in disk && FileOf(bases, p) && p.name == filename) ==> found.Some? && found.value.name == filename)
            && (found.Some? ==> exists r: nat :: FirstByName(disk, bases, filename, found.value, r)
                                              || FirstByPrefix(disk, bases, filename, found.value, r))
  {
    var bases := FolderBases(home, folder);
    AllSearched(bases);
    found := LocateByName(disk, bases, filename);
    if found.None? {
      found := LocateByPrefix(disk, bases, filename);
    }
  }

  lemma AllSearched(bases: seq<Path>)
    ensures forall p: Path :: FileOf(bases, p) ==> exists q: nat :: q < 2 * |bases| && p.dir == Slot(bases, q)
  {
    SearchDirsAre(bases);
    forall p: Path | FileOf(bases, p) ensures exists q: nat :: q < 2 * |bases| && p.dir == Slot(bases, q) {
      SearchDirsComplete(bases, p);
      var q :| 0 <= q < |SearchDirs(bases)| && SearchDirs(bases)[q] == p.dir;
      assert Slot(bases, q) == p.dir;
    }
  }

  method LocateByName(disk: Disk, bases: seq<Path>, filename: string) returns (found: Option<Path>)
    ensures match found
            case Some(p) => exists r: nat :: FirstByName(disk, bases, filename, p, r)
            case None => NoNameBefore(disk, bases, 2 * |bases|, filename)
  {
    var dirs := SearchDirs(bases);
    SearchDirsAre(bases);
    for i := 0 to |dirs|
      invariant NoNameBefore(disk, bases, i, filename)
    {
      if Child(dirs[i], filename) in disk {
        assert FirstByName(disk, bases, filename, Child(dirs[i], filename), i);
        return Some(Child(dirs[i], filename));
      }
    }
    return None;
  }

  lemma NextSlot(disk: Disk, bases: seq<Path>, i: nat, prefix: string)
    requires i < 2 * |bases| && NoPrefixBefore(disk, bases, i, prefix) && NoPrefixIn(disk, Slot(bases, i), prefix)
    ensures NoPrefixBefore(disk, bases, i + 1, prefix)
  {
  }

  method LocateByPrefix(disk: Disk, bases: seq<Path>, filename: string) returns (found: Option<Path>)
    requires NoNameBefore(disk, bases, 2 * |bases|, filename)
    ensures match found
            case Some(p) => exists r: nat :: FirstByPrefix(disk, bases, filename, p, r)
            case None => NoPrefixBefore(disk, bases, 2 * |bases|, FilenamePrefix(filename))
  {
    var dirs := SearchDirs(bases);
    SearchDirsAre(bases);
    for i := 0 to |dirs|
      invariant NoPrefixBefore(disk, bases, i, FilenamePrefix(filename))
    {
      var slot := dirs[i];
      assert slot == Slot(bases, i);
      found := FindByPrefix(disk, slot, FilenamePrefix(filename));
      if found.Some? {
        assert FirstByPrefix(disk, bases, filename, found.value, i);
        return;
      }
      NextSlot(disk, bases, i, FilenamePrefix(filename));
    }
    return None;
  }

  /** A message in the real INBOX directory hides one of the same name at the top. */
  method InboxFirst(disk: Disk, home: Path, filename: string) returns (found: Option<Path>)
    requires Child(Child(Child(home, INBOX), CUR), filename) in disk
    ensures found == Some(Child(Child(Child(home, INBOX), CUR), filename))
  {
    found := LocateLiveFile(disk, home, INBOX, filename);
    var bases := FolderBases(home, INBOX);
    assert Slot(bases, 0) == Child(Child(home, INBOX), CUR);
  }

  method FindByPrefix(disk: Disk, dir: Path, prefix: string) returns (found: Option<Path>)
    ensures found.Some? ==> found.value in disk && found.value.Child? && found.value.dir == dir && FilenamePrefix(found.value.name) == prefix
    ensures found.None? ==> NoPrefixIn(disk, dir, prefix)
  {
    var listing := set p | p in disk && p.Child? && p.dir == dir;
    while listing != {}
      invariant forall p :: p in listing ==> p in disk && p.Child? && p.dir == dir
      invariant forall p :: p in disk && p.Child? && p.dir == dir && p !in listing ==> FilenamePrefix(p.name) != prefix
      decreases |listing|
    {
      var p := Choose(listing);
      listing := listing - {p};
      if FilenamePrefix(p.name) == prefix {
        return Some(p);
      }
    }
    return None;
  }

  /**
   * A message indexed from `walked` is found again wherever in its folder it is now and whatever
   * its flags are, as long as no other file of the folder shares its prefix.
   */
  method FindAgain(disk: Disk, home: Path, walked: Path, filename: string, ghost now: Path) returns (found: Option<Path>)
    requires walked == home || Below(walked, home)
    requires now in disk && now.Child? && now.dir.Child? && now.dir.name in {CUR, NEW}
    requires now.dir.dir == home || Below(now.dir.dir, home)
    requires FolderOf(now.dir.dir, home) == FolderOf(walked, home)
    requires now.name == filename || Reflagged(now.name, filename)
    requires forall p ::
               (p in disk && FileOf(FolderBases(home, FolderOf(walked, home)), p) && FilenamePrefix(p.name) == FilenamePrefix(now.name))
               ==> p == now
    ensures found == Some(now)
  {
    BasesInvertWalk(home, now.dir.dir, walked);
    SamePrefix(now.name, filename);
    found := LocateLiveFile(disk, home, FolderOf(walked, home), filename);
  }
}
