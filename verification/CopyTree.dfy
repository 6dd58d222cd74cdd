/**
 * The copy engine of a store migration: count a tree, copy it with skip-existing
 * semantics, compare file counts. The source is a tree as `scandir` shows it; the
 * destination is a file system changed in place.
 */
module CopyTree {
  import opened Wrappers

  type Name = string

  /** A path, from the root down. */
  datatype Path = Root | Child(dir: Path, name: Name)

  datatype Data = Data(id: int, size: nat)
  datatype Node = File(data: Data) | Dir(entries: seq<Entry>)
  datatype Entry = Entry(name: Name, node: Node)

  // ---------------------------------------------------------------------------
  // Trees
  // ---------------------------------------------------------------------------

  /** Names are unique within a directory. */
  ghost predicate WellFormed(n: Node)
    decreases n, 1
  {
    n.Dir? ==> WellFormedAll(n.entries)
  }

  ghost predicate WellFormedAll(es: seq<Entry>)
    decreases es, 0
  {
    es != [] ==>
      && WellFormedAll(es[..|es| - 1]) && WellFormed(es[|es| - 1].node)
      && forall i :: 0 <= i < |es| - 1 ==> es[i].name != es[|es| - 1].name
  }

  /** The files of a tree that sits at path `at`. */
  ghost function Files(n: Node, at: Path): map<Path, Data>
    decreases n, 1
  {
    match n
    case File(d) => map[at := d]
    case Dir(es) => FilesOf(es, at)
  }

  ghost function FilesOf(es: seq<Entry>, at: Path): map<Path, Data>
    decreases es, 0
  {
    if es == [] then map[]
    else FilesOf(es[..|es| - 1], at) + Files(es[|es| - 1].node, Child(at, es[|es| - 1].name))
  }

  ghost function Dirs(n: Node, at: Path): set<Path>
    decreases n, 1
  {
    match n
    case File(_) => {}
    case Dir(es) => {at} + DirsOf(es, at)
  }

  ghost function DirsOf(es: seq<Entry>, at: Path): set<Path>
    decreases es, 0
  {
    if es == [] then {}
    else DirsOf(es[..|es| - 1], at) + Dirs(es[|es| - 1].node, Child(at, es[|es| - 1].name))
  }

  ghost function Bytes(n: Node): nat
    decreases n, 1
  {
    match n
    case File(d) => d.size
    case Dir(es) => BytesOf(es)
  }

  ghost function BytesOf(es: seq<Entry>): nat
    decreases es, 0
  {
    if es == [] then 0 else BytesOf(es[..|es| - 1]) + Bytes(es[|es| - 1].node)
  }

  // ---------------------------------------------------------------------------
  // Where the paths of a tree lie
  // ---------------------------------------------------------------------------

  predicate Within(q: Path, at: Path) {
    q == at || (q.Child? && Within(q.dir, at))
  }

  /** Nothing lies below two different names of one directory. */
  lemma {:induction false} SiblingsApart(q: Path, at: Path, a: Name, b: Name)
    requires Within(q, Child(at, a)) && Within(q, Child(at, b))
    ensures a == b
  {
    if q != Child(at, a) && q != Child(at, b) {
      SiblingsApart(q.dir, at, a, b);
    } else if q == Child(at, a) && a != b {
      NotBelowItself(at, Child(at, b));
    } else if a != b {
      NotBelowItself(at, Child(at, a));
    }
  }

  ghost function Depth(q: Path): nat {
    if q.Root? then 0 else 1 + Depth(q.dir)
  }

  lemma {:induction false} DeeperWithin(q: Path, at: Path)
    requires Within(q, at)
    ensures Depth(q) >= Depth(at) && (Depth(q) == Depth(at) ==> q == at)
  {
    if q != at {
      DeeperWithin(q.dir, at);
    }
  }

  lemma NotBelowItself(at: Path, below: Path)
    requires below.Child? && below.dir == at
    ensures !Within(at, below)
  {
    if Within(at, below) {
      DeeperWithin(at, below);
    }
  }

  lemma {:induction false} WithinParent(q: Path, at: Path, name: Name)
    requires Within(q, Child(at, name))
    ensures Within(q, at) && q != at
  {
    if q == Child(at, name) {
      NotBelowItself(at, q);
    } else {
      WithinParent(q.dir, at, name);
      if q == at {
        NotBelowItself(at, Child(at, name));
      }
    }
  }

  lemma {:induction false} TreeWithin(n: Node, at: Path, q: Path)
    requires q in Files(n, at) || q in Dirs(n, at)
    ensures Within(q, at)
    decreases n, 1
  {
    if n.Dir? && (q in FilesOf(n.entries, at) || q in DirsOf(n.entries, at)) {
      var i := EntryAbove(n.entries, at, q);
      WithinParent(q, at, n.entries[i].name);
    }
  }

  lemma {:induction false} EntryAbove(es: seq<Entry>, at: Path, q: Path) returns (i: nat)
    requires q in FilesOf(es, at) || q in DirsOf(es, at)
    ensures i < |es| && Within(q, Child(at, es[i].name))
    decreases es, 0
  {
    var last := es[|es| - 1];
    if q in FilesOf(es[..|es| - 1], at) || q in DirsOf(es[..|es| - 1], at) {
      i := EntryAbove(es[..|es| - 1], at, q);
    } else {
      TreeWithin(last.node, Child(at, last.name), q);
      i := |es| - 1;
    }
  }

  /** The last entry shares no path with the ones before it. */
  lemma LastApart(es: seq<Entry>, at: Path)
    requires es != [] && WellFormedAll(es)
    ensures var init, last := es[..|es| - 1], Child(at, es[|es| - 1].name);
            forall q :: Within(q, last) ==> q !in FilesOf(init, at) && q !in DirsOf(init, at)
  {
    var init, last := es[..|es| - 1], es[|es| - 1];
    forall q | Within(q, Child(at, last.name)) ensures q !in FilesOf(init, at) && q !in DirsOf(init, at) {
      if q in FilesOf(init, at) || q in DirsOf(init, at) {
        var i := EntryAbove(init, at, q);
        SiblingsApart(q, at, init[i].name, last.name);
      }
    }
  }

  // ---------------------------------------------------------------------------
  // Counting
  // ---------------------------------------------------------------------------

  lemma CountLast(es: seq<Entry>, at: Path)
    requires es != [] && WellFormedAll(es)
    ensures |FilesOf(es, at)| == |FilesOf(es[..|es| - 1], at)| + |Files(es[|es| - 1].node, Child(at, es[|es| - 1].name))|
  {
    var init, last := es[..|es| - 1], es[|es| - 1];
    var a, b := FilesOf(init, at), Files(last.node, Child(at, last.name));
    LastApart(es, at);
    forall q | q in b ensures q !in a {
      TreeWithin(last.node, Child(at, last.name), q);
    }
    assert (a + b).Keys == a.Keys + b.Keys && a.Keys !! b.Keys;
  }

  lemma {:induction false} WellFormedPrefix(es: seq<Entry>, k: nat)
    requires WellFormedAll(es) && k <= |es|
    ensures WellFormedAll(es[..k]) && (k < |es| ==> WellFormed(es[k].node))
    decreases |es| - k
  {
    if k < |es| {
      WellFormedPrefix(es, k + 1);
      assert es[..k + 1][..k] == es[..k];
    } else {
      assert es[..k] == es;
    }
  }

  /** One more directory entry. */
  lemma NextEntry(es: seq<Entry>, i: nat, at: Path)
    requires WellFormedAll(es) && i < |es|
    ensures WellFormed(es[i].node) && WellFormedAll(es[..i])
    ensures |FilesOf(es[..i + 1], at)| == |FilesOf(es[..i], at)| + |Files(es[i].node, Child(at, es[i].name))|
    ensures BytesOf(es[..i + 1]) == BytesOf(es[..i]) + Bytes(es[i].node)
  {
    WellFormedPrefix(es, i);
    WellFormedPrefix(es, i + 1);
    assert es[..i + 1][..i] == es[..i];
    CountLast(es[..i + 1], at);
  }

  method PrescanEntry(e: Entry, ghost at: Path) returns (fileCount: nat, totalBytes: nat)
    requires WellFormed(e.node)
    ensures fileCount == |Files(e.node, Child(at, e.name))| && totalBytes == Bytes(e.node)
    decreases e
  {
    if e.node.Dir? {
      fileCount, totalBytes := Prescan(e.node, Child(at, e.name));
    } else {
      fileCount, totalBytes := 1, e.node.data.size;
    }
  }

  /** `prescan`: the number of files below a directory and their total size. */
  method Prescan(n: Node, ghost at: Path) returns (fileCount: nat, totalBytes: nat)
    requires n.Dir? && WellFormed(n)
    ensures fileCount == |Files(n, at)| && totalBytes == Bytes(n)
    decreases n
  {
    fileCount, totalBytes := 0, 0;
    var i := 0;
    while i < |n.entries|
      invariant 0 <= i <= |n.entries|
      invariant fileCount == |FilesOf(n.entries[..i], at)| && totalBytes == BytesOf(n.entries[..i])
    {
      NextEntry(n.entries, i, at);
      var subFiles, subBytes := PrescanEntry(n.entries[i], at);
      fileCount, totalBytes := fileCount + subFiles, totalBytes + subBytes;
      i := i + 1;
    }
    WholeTree(n, at);
  }

  // ---------------------------------------------------------------------------
  // Copying
  // ---------------------------------------------------------------------------

  /** `CancelRequested`: the progress callback raised; `Clash`: a directory is wanted where a file is. */
  datatype Outcome = Done | CancelRequested | Clash

  function Ancestors(p: Path): (s: set<Path>)
    ensures forall d :: d in s <==> Within(p, d)
  {
    if p.Root? then {p} else Ancestors(p.dir) + {p}
  }

  /** Existing files are as they were, and whatever is new came from the source, where nothing was before. */
  ghost predicate Grown(files0: map<Path, Data>, dirs0: set<Path>, src: map<Path, Data>, files1: map<Path, Data>) {
    && (forall q :: q in files0 ==> q in files1 && files1[q] == files0[q])
    && (forall q :: q in files1 && q !in files0 ==> q in src && q !in dirs0 && files1[q] == src[q])
  }

  /** Every source file is there, unless a directory already stood in its place. */
  ghost predicate Complete(dirs0: set<Path>, src: map<Path, Data>, files1: map<Path, Data>) {
    forall q :: q in src && q !in dirs0 ==> q in files1
  }

  ghost predicate DirsGrown(dirs0: set<Path>, dest: Path, made: set<Path>, dirs1: set<Path>) {
    && dirs0 <= dirs1
    && forall d :: d in dirs1 && d !in dirs0 ==> Within(dest, d) || d in made
  }

  /** Everything at or above `dest` is a directory, and so is everything in `made`; no other was created. */
  ghost predicate DirsMade(dirs0: set<Path>, dest: Path, made: set<Path>, dirs1: set<Path>) {
    forall d :: d in dirs1 <==> d in dirs0 || Within(dest, d) || d in made
  }

  /** Each new file is in a directory. */
  ghost predicate Housed(files0: map<Path, Data>, files1: map<Path, Data>, dirs1: set<Path>) {
    forall q :: q in files1 && q !in files0 ==> q.Child? && q.dir in dirs1
  }

  lemma HousedOn(files0: map<Path, Data>, files1: map<Path, Data>, dirs1: set<Path>, files2: map<Path, Data>, dirs2: set<Path>)
    requires Housed(files0, files1, dirs1) && Housed(files1, files2, dirs2) && dirs1 <= dirs2
    ensures Housed(files0, files2, dirs2)
  {
  }

  /** A cancelled copy stops at the first callback that sees the flag. */
  ghost predicate StopsAt(o: Outcome, cancelFrom: Option<nat>, start: nat, copied: nat) {
    o == CancelRequested ==> cancelFrom.Some? && copied == if start + 1 >= cancelFrom.value then start + 1 else cancelFrom.value
  }

  /** The callbacks so far: one a file, counting up by one, bytes never falling. */
  ghost predicate Rising(reported: seq<(nat, nat)>, files: nat, bytes: nat) {
    && |reported| == files
    && (forall k :: 0 <= k < |reported| ==> reported[k].0 == k + 1)
    && (forall k :: 0 < k < |reported| ==> reported[k - 1].1 <= reported[k].1)
    && bytes == (if reported == [] then 0 else reported[|reported| - 1].1)
  }

  /** The loop of `copy_tree` over a directory: one entry more. */
  lemma EntryCopied(files0: map<Path, Data>, dirs0: set<Path>, es: seq<Entry>, i: nat, dest: Path,
                    files: map<Path, Data>, dirs: set<Path>, files': map<Path, Data>)
    requires WellFormedAll(es) && i < |es|
    requires Grown(files0, dirs0, FilesOf(es[..i], dest), files) && Complete(dirs0, FilesOf(es[..i], dest), files)
    requires DirsGrown(dirs0, dest, DirsOf(es[..i], dest), dirs)
    requires Grown(files, dirs, Files(es[i].node, Child(dest, es[i].name)), files')
    ensures Grown(files0, dirs0, FilesOf(es[..i + 1], dest), files')
    ensures Complete(dirs, Files(es[i].node, Child(dest, es[i].name)), files') ==> Complete(dirs0, FilesOf(es[..i + 1], dest), files')
  {
    var c, sub := Child(dest, es[i].name), es[..i + 1];
    WellFormedPrefix(es, i + 1);
    assert sub[..i] == es[..i] && sub[i] == es[i];
    LastApart(sub, dest);
    forall q | q in Files(es[i].node, c) ensures (q !in dirs0 ==> q !in dirs) && q !in FilesOf(es[..i], dest) {
      EntryIsFresh(es[i].node, dest, es[i].name, q);
    }
    OneMoreGrown(files0, dirs0, FilesOf(es[..i], dest), files, dirs, Files(es[i].node, c), files');
  }

  lemma OneMoreGrown(files0: map<Path, Data>, dirs0: set<Path>, before: map<Path, Data>, files: map<Path, Data>, dirs: set<Path>,
                     more: map<Path, Data>, files': map<Path, Data>)
    requires Grown(files0, dirs0, before, files) && Complete(dirs0, before, files) && Grown(files, dirs, more, files')
    requires dirs0 <= dirs && forall q :: q in more ==> (q !in dirs0 ==> q !in dirs) && q !in before
    ensures Grown(files0, dirs0, before + more, files')
    ensures Complete(dirs, more, files') ==> Complete(dirs0, before + more, files')
  {
  }

  lemma EntryIsFresh(n: Node, dest: Path, name: Name, q: Path)
    requires q in Files(n, Child(dest, name))
    ensures !Within(dest, q) && Within(q, Child(dest, name))
  {
    TreeWithin(n, Child(dest, name), q);
    WithinParent(q, dest, name);
    if Within(dest, q) {
      DeeperWithin(dest, q);
      DeeperWithin(q, dest);
    }
  }

  /** No directory the copy needs, at or above `dest` or among those of the source, is a file there. */
  ghost predicate Clear(files0: map<Path, Data>, es: seq<Entry>, dest: Path) {
    forall d :: d in files0 ==> !Within(dest, d) && d !in DirsOf(es, dest)
  }

  /** Some callback of `n` files sees the cancel flag. */
  ghost predicate Cancels(cancelFrom: Option<nat>, start: nat, n: nat) {
    cancelFrom.Some? && n > 0 && start + n >= cancelFrom.value
  }

  /** How a copy ends: exactly when it is done, cancelled or in the way of a file. */
  ghost predicate Ends(o: Outcome, files0: map<Path, Data>, es: seq<Entry>, dest: Path, cancelFrom: Option<nat>, start: nat) {
    && (Clear(files0, es, dest) ==> o == if Cancels(cancelFrom, start, |FilesOf(es, dest)|) then CancelRequested else Done)
    && (!Clear(files0, es, dest) ==> o != Done)
    && (cancelFrom.None? ==> o != CancelRequested)
  }

  lemma FilesBelow(es: seq<Entry>, at: Path, q: Path)
    requires q in FilesOf(es, at)
    ensures !Within(at, q)
  {
    var i := EntryAbove(es, at, q);
    WithinParent(q, at, es[i].name);
    if Within(at, q) {
      DeeperWithin(at, q);
      DeeperWithin(q, at);
    }
  }

  /** The files copied so far are in nobody's way. */
  lemma NewFilesAside(es: seq<Entry>, i: nat, dest: Path, q: Path)
    requires WellFormedAll(es) && i < |es| && q in FilesOf(es[..i], dest)
    ensures !Within(Child(dest, es[i].name), q) && q !in Dirs(es[i].node, Child(dest, es[i].name))
  {
    var c, sub := Child(dest, es[i].name), es[..i + 1];
    WellFormedPrefix(es, i + 1);
    assert sub[..i] == es[..i] && sub[i] == es[i];
    LastApart(sub, dest);
    FilesBelow(es[..i], dest, q);
    assert Within(c, c);
    if q in Dirs(es[i].node, c) {
      TreeWithin(es[i].node, c, q);
    }
  }

  lemma EntryClear(files0: map<Path, Data>, dirs0: set<Path>, es: seq<Entry>, i: nat, dest: Path, files: map<Path, Data>)
    requires WellFormedAll(es) && i < |es| && Clear(files0, es[..i], dest)
    requires Grown(files0, dirs0, FilesOf(es[..i], dest), files)
    ensures es[i].node.File? ==> Clear(files0, es[..i + 1], dest)
    ensures es[i].node.Dir? ==> (Clear(files, es[i].node.entries, Child(dest, es[i].name)) <==> Clear(files0, es[..i + 1], dest))
  {
    var c, sub := Child(dest, es[i].name), es[..i + 1];
    assert sub[..i] == es[..i] && sub[i] == es[i];
    assert DirsOf(sub, dest) == DirsOf(es[..i], dest) + Dirs(es[i].node, c);
    if es[i].node.Dir? && Clear(files0, sub, dest) {
      forall d | d in files ensures !Within(c, d) && d !in DirsOf(es[i].node.entries, c) {
        if d !in files0 {
          NewFilesAside(es, i, dest, d);
        }
      }
    }
    if es[i].node.Dir? && Clear(files, es[i].node.entries, c) {
      assert Within(c, c);
    }
  }

  ghost predicate PartOf(part: map<Path, Data>, whole: map<Path, Data>) {
    forall q :: q in part ==> q in whole && whole[q] == part[q]
  }

  lemma PartCount(part: map<Path, Data>, whole: map<Path, Data>)
    requires PartOf(part, whole)
    ensures |part| <= |whole|
  {
    SubsetCount(part.Keys, whole.Keys);
  }

  lemma OneMorePart(es: seq<Entry>, i: nat, dest: Path)
    requires WellFormedAll(es) && i < |es|
    ensures PartOf(FilesOf(es[..i], dest), FilesOf(es[..i + 1], dest)) && DirsOf(es[..i], dest) <= DirsOf(es[..i + 1], dest)
  {
    var sub := es[..i + 1];
    assert sub[..i] == es[..i];
    WellFormedPrefix(es, i + 1);
    LastApart(sub, dest);
    forall q | q in Files(es[i].node, Child(dest, es[i].name)) ensures q !in FilesOf(es[..i], dest) {
      TreeWithin(es[i].node, Child(dest, es[i].name), q);
    }
  }

  /** What the first entries hold is part of what the directory holds. */
  lemma {:induction false} RestOfEntries(es: seq<Entry>, i: nat, dest: Path)
    requires WellFormedAll(es) && i <= |es|
    ensures PartOf(FilesOf(es[..i], dest), FilesOf(es, dest)) && DirsOf(es[..i], dest) <= DirsOf(es, dest)
    decreases |es| - i
  {
    if i == |es| {
      assert es[..i] == es;
    } else {
      OneMorePart(es, i, dest);
      RestOfEntries(es, i + 1, dest);
    }
  }

  /** A copy that ends early at some entry ends the same way for the whole directory. */
  lemma EndsEarly(o: Outcome, files0: map<Path, Data>, es: seq<Entry>, i: nat, dest: Path, cancelFrom: Option<nat>, start: nat)
    requires WellFormedAll(es) && i <= |es| && o != Done && Ends(o, files0, es[..i], dest, cancelFrom, start)
    ensures Ends(o, files0, es, dest, cancelFrom, start)
  {
    RestOfEntries(es, i, dest);
    PartCount(FilesOf(es[..i], dest), FilesOf(es, dest));
  }

  class Copier {
    var files: map<Path, Data>
    var dirs: set<Path>
    var copiedFiles: nat
    var copiedBytes: nat
    var reported: seq<(nat, nat)>

    /** `os.makedirs(dest, exist_ok=True)`. */
    method MakeDirs(dest: Path) returns (ok: bool)
      modifies this`dirs
      ensures ok <==> forall d :: d in files ==> !Within(dest, d)
      ensures dirs == if ok then old(dirs) + Ancestors(dest) else old(dirs)
    {
      ok := Ancestors(dest) !! files.Keys;
      if ok {
        dirs := dirs + Ancestors(dest);
      }
    }

    /** One file of the scan, and its callback; `cancelFrom` is the first callback that sees the cancel flag. */
    method CopyFile(data: Data, dest: Path, cancelFrom: Option<nat>) returns (o: Outcome)
      requires Rising(reported, copiedFiles, copiedBytes)
      modifies this`files, this`copiedFiles, this`copiedBytes, this`reported
      ensures Grown(old(files), dirs, map[dest := data], files) && Complete(dirs, map[dest := data], files)
      ensures o != Clash && copiedFiles == old(copiedFiles) + 1 && copiedBytes == old(copiedBytes) + data.size
      ensures o == Done ==> Rising(reported, copiedFiles, copiedBytes)
      ensures o == CancelRequested <==> cancelFrom.Some? && copiedFiles >= cancelFrom.value
    {
      if dest !in files && dest !in dirs {
        files := files[dest := data];
      }
      copiedFiles, copiedBytes := copiedFiles + 1, copiedBytes + data.size;
      if cancelFrom.Some? && copiedFiles >= cancelFrom.value {
        return CancelRequested;
      }
      reported := reported + [(copiedFiles, copiedBytes)];
      return Done;
    }

    /** The state of the loop over a directory's entries, `i` of them copied. */
    ghost predicate Copied(files0: map<Path, Data>, dirs0: set<Path>, start: (nat, nat), es: seq<Entry>, i: nat, dest: Path)
      requires i <= |es|
      reads this
    {
      && Grown(files0, dirs0, FilesOf(es[..i], dest), files)
      && Complete(dirs0, FilesOf(es[..i], dest), files)
      && DirsMade(dirs0, dest, DirsOf(es[..i], dest), dirs) && Housed(files0, files, dirs)
      && Rising(reported, copiedFiles, copiedBytes)
      && copiedFiles == start.0 + |FilesOf(es[..i], dest)|
      && copiedBytes == start.1 + BytesOf(es[..i])
    }

    method CopyEntry(es: seq<Entry>, i: nat, dest: Path, cancelFrom: Option<nat>,
                     ghost files0: map<Path, Data>, ghost dirs0: set<Path>, ghost start: (nat, nat)) returns (o: Outcome)
      requires WellFormedAll(es) && i < |es| && Copied(files0, dirs0, start, es, i, dest)
      requires Ends(Done, files0, es[..i], dest, cancelFrom, start.0)
      modifies this
      ensures Ends(o, files0, es[..i + 1], dest, cancelFrom, start.0)
      ensures o == Done ==> Copied(files0, dirs0, start, es, i + 1, dest)
      ensures Grown(files0, dirs0, FilesOf(es[..i + 1], dest), files)
      ensures DirsGrown(dirs0, dest, DirsOf(es[..i + 1], dest), dirs) && Housed(files0, files, dirs)
      ensures StopsAt(o, cancelFrom, start.0, copiedFiles)
      decreases es, 0
    {
      var e := es[i];
      ghost var files', dirs' := files, dirs;
      NextEntry(es, i, dest);
      EntryClear(files0, dirs0, es, i, dest, files');
      if e.node.Dir? {
        o := CopyTree(e.node, Child(dest, e.name), cancelFrom);
      } else {
        o := CopyFile(e.node.data, Child(dest, e.name), cancelFrom);
      }
      EntryCopied(files0, dirs0, es, i, dest, files', dirs', files);
      HousedOn(files0, files', dirs', files, dirs);
      EntryDirs(dirs0, es, i, dest, dirs', dirs);
    }

    /** `copy_tree`. */
    method CopyTree(n: Node, dest: Path, cancelFrom: Option<nat>) returns (o: Outcome)
      requires n.Dir? && WellFormed(n) && Rising(reported, copiedFiles, copiedBytes)
      modifies this
      ensures Grown(old(files), old(dirs), Files(n, dest), files)
      ensures DirsGrown(old(dirs), dest, Dirs(n, dest), dirs) && Housed(old(files), files, dirs)
      ensures Ends(o, old(files), n.entries, dest, cancelFrom, old(copiedFiles))
      ensures StopsAt(o, cancelFrom, old(copiedFiles), copiedFiles)
      ensures o == Done ==>
                && DirsMade(old(dirs), dest, Dirs(n, dest), dirs)
                && Complete(old(dirs), Files(n, dest), files)
                && Rising(reported, copiedFiles, copiedBytes)
                && copiedFiles == old(copiedFiles) + |Files(n, dest)|
                && copiedBytes == old(copiedBytes) + Bytes(n)
      decreases n, 1
    {
      ghost var files0, dirs0, start := files, dirs, (copiedFiles, copiedBytes);
      var ok := MakeDirs(dest);
      if !ok {
        return Clash;
      }
      NothingCopied(files0, dirs0, n.entries, dest);
      o := CopyEntries(n.entries, dest, cancelFrom, files0, dirs0, start);
      WholeTree(n, dest);
    }

    method CopyEntries(es: seq<Entry>, dest: Path, cancelFrom: Option<nat>,
                       ghost files0: map<Path, Data>, ghost dirs0: set<Path>, ghost start: (nat, nat)) returns (o: Outcome)
      requires WellFormedAll(es) && Copied(files0, dirs0, start, es, 0, dest) && Ends(Done, files0, es[..0], dest, cancelFrom, start.0)
      modifies this
      ensures o == Done ==> Copied(files0, dirs0, start, es, |es|, dest)
      ensures Ends(o, files0, es, dest, cancelFrom, start.0)
      ensures Grown(files0, dirs0, FilesOf(es, dest), files) && DirsGrown(dirs0, dest, DirsOf(es, dest), dirs)
      ensures Housed(files0, files, dirs) && StopsAt(o, cancelFrom, start.0, copiedFiles)
      decreases es, 1
    {
      o := Done;
      var i := 0;
      while i < |es|
        invariant 0 <= i <= |es| && Copied(files0, dirs0, start, es, i, dest)
        invariant o == Done && Ends(Done, files0, es[..i], dest, cancelFrom, start.0)
      {
        o := CopyEntry(es, i, dest, cancelFrom, files0, dirs0, start);
        i := i + 1;
        if o != Done {
          EndsEarly(o, files0, es, i, dest, cancelFrom, start.0);
          RestUntouched(files0, dirs0, es, i, dest, files, dirs);
          return;
        }
      }
      assert es[..i] == es;
    }
  }

  lemma WholeTree(n: Node, dest: Path)
    requires n.Dir?
    ensures n.entries[..|n.entries|] == n.entries
    ensures FilesOf(n.entries[..|n.entries|], dest) == Files(n, dest) && BytesOf(n.entries[..|n.entries|]) == Bytes(n)
  {
    assert n.entries[..|n.entries|] == n.entries;
  }

  lemma NothingCopied(files0: map<Path, Data>, dirs0: set<Path>, es: seq<Entry>, dest: Path)
    ensures es[..0] == [] && FilesOf(es[..0], dest) == map[] && BytesOf(es[..0]) == 0
    ensures Grown(files0, dirs0, map[], files0) && Complete(dirs0, map[], files0)
    ensures DirsMade(dirs0, dest, {}, dirs0 + Ancestors(dest)) && DirsOf(es[..0], dest) == {}
  {
  }

  lemma EntryDirs(dirs0: set<Path>, es: seq<Entry>, i: nat, dest: Path, dirs: set<Path>, dirs': set<Path>)
    requires i < |es| && DirsMade(dirs0, dest, DirsOf(es[..i], dest), dirs)
    requires DirsGrown(dirs, Child(dest, es[i].name), Dirs(es[i].node, Child(dest, es[i].name)), dirs')
    requires es[i].node.File? ==> dirs' == dirs
    ensures DirsGrown(dirs0, dest, DirsOf(es[..i + 1], dest), dirs')
    ensures es[i].node.File? || DirsMade(dirs, Child(dest, es[i].name), Dirs(es[i].node, Child(dest, es[i].name)), dirs') ==>
              DirsMade(dirs0, dest, DirsOf(es[..i + 1], dest), dirs')
  {
    var c, sub := Child(dest, es[i].name), es[..i + 1];
    assert sub[..i] == es[..i] && sub[i] == es[i];
  }

  /** A copy that stops early has only done part of what a full one does. */
  lemma RestUntouched(files0: map<Path, Data>, dirs0: set<Path>, es: seq<Entry>, i: nat, dest: Path,
                      files: map<Path, Data>, dirs: set<Path>)
    requires WellFormedAll(es) && i <= |es|
    requires Grown(files0, dirs0, FilesOf(es[..i], dest), files)
    requires DirsGrown(dirs0, dest, DirsOf(es[..i], dest), dirs)
    ensures Grown(files0, dirs0, FilesOf(es, dest), files)
    ensures DirsGrown(dirs0, dest, DirsOf(es, dest), dirs)
  {
    RestOfEntries(es, i, dest);
  }

  // ---------------------------------------------------------------------------
  // Verification by counting
  // ---------------------------------------------------------------------------

  /** `verify_copy`: the file counts agree. */
  method VerifyCopy(source: Node, dest: Node, ghost at: Path) returns (ok: bool)
    requires source.Dir? && dest.Dir? && WellFormed(source) && WellFormed(dest)
    ensures ok <==> |Files(source, at)| == |Files(dest, at)|
  {
    var srcFiles, _ := Prescan(source, at);
    var dstFiles, _ := Prescan(dest, at);
    ok := srcFiles == dstFiles;
  }

  /** `scandir` of the destination shows exactly the files below `at`. */
  ghost predicate Shows(dest: Node, at: Path, files: map<Path, Data>) {
    forall q :: (q in Files(dest, at) <==> q in files && Within(q, at)) && (q in Files(dest, at) ==> Files(dest, at)[q] == files[q])
  }

  /** No file of the source finds a directory in its place. */
  ghost predicate NoClash(dirs0: set<Path>, src: map<Path, Data>) {
    forall q :: q in src ==> q !in dirs0
  }

  /** A finished copy holds every source file exactly when no directory stood in the way of one. */
  lemma CopyIsSuperset(src: Node, at: Path, files0: map<Path, Data>, dirs0: set<Path>, files1: map<Path, Data>)
    requires Grown(files0, dirs0, Files(src, at), files1) && Complete(dirs0, Files(src, at), files1)
    requires dirs0 !! files0.Keys
    ensures (forall q :: q in Files(src, at) ==> q in files1) <==> NoClash(dirs0, Files(src, at))
  {
  }

  /** After a clash-free copy, equal counts mean equal sets of paths, and the other way round. */
  lemma CountingSuffices(src: Node, dest: Node, at: Path, files0: map<Path, Data>, dirs0: set<Path>, files1: map<Path, Data>)
    requires Grown(files0, dirs0, Files(src, at), files1) && Complete(dirs0, Files(src, at), files1)
    requires NoClash(dirs0, Files(src, at)) && Shows(dest, at, files1)
    ensures |Files(src, at)| == |Files(dest, at)| <==> Files(src, at).Keys == Files(dest, at).Keys
  {
    var s, d := Files(src, at).Keys, Files(dest, at).Keys;
    forall q | q in s ensures q in d {
      TreeWithin(src, at, q);
    }
    SubsetCount(s, d);
  }

  lemma SubsetCount<T>(s: set<T>, d: set<T>)
    requires s <= d
    ensures |s| <= |d| && (|s| == |d| <==> s == d)
  {
    assert d == s + (d - s);
    assert s != d ==> d - s != {};
  }

  /** With the same paths on both sides, the contents agree exactly when nothing different was there before. */
  lemma ContentsAgree(src: Node, dest: Node, at: Path, files0: map<Path, Data>, dirs0: set<Path>, files1: map<Path, Data>)
    requires Grown(files0, dirs0, Files(src, at), files1) && Complete(dirs0, Files(src, at), files1)
    requires Shows(dest, at, files1) && Files(src, at).Keys == Files(dest, at).Keys
    ensures Files(dest, at) == Files(src, at) <==>
            forall q :: q in files0 && q in Files(src, at) ==> files0[q] == Files(src, at)[q]
  {
    var s, d := Files(src, at), Files(dest, at);
    if forall q :: q in files0 && q in s ==> files0[q] == s[q] {
      forall q | q in s ensures d[q] == s[q] {
        assert q in d;
      }
    } else {
      var q :| q in files0 && q in s && files0[q] != s[q];
      assert q in d && d[q] == files0[q];
    }
  }

  lemma OneEntry(e: Entry, at: Path)
    ensures Files(Dir([e]), at) == Files(e.node, Child(at, e.name))
    ensures Dirs(Dir([e]), at) == {at} + Dirs(e.node, Child(at, e.name))
    ensures WellFormed(Dir([e])) == WellFormed(e.node)
  {
    var es := [e];
    assert es[..0] == [] && FilesOf([], at) == map[] && DirsOf([], at) == {} && WellFormedAll([]);
    assert FilesOf(es, at) == FilesOf(es[..0], at) + Files(e.node, Child(at, e.name));
    assert DirsOf(es, at) == DirsOf(es[..0], at) + Dirs(e.node, Child(at, e.name));
    assert WellFormedAll(es) == (WellFormedAll(es[..0]) && WellFormed(e.node));
  }

  /** With a clash the counts can agree although a file is missing: here `a` is a file on one side, a directory on the other. */
  lemma ClashFoolsCounting() returns (src: Node, dest: Node, files0: map<Path, Data>, dirs0: set<Path>)
    ensures src.Dir? && dest.Dir? && WellFormed(src) && WellFormed(dest)
    ensures Shows(dest, Root, files0) && dirs0 == Dirs(dest, Root)
    ensures Grown(files0, dirs0, Files(src, Root), files0) && Complete(dirs0, Files(src, Root), files0)
    ensures |Files(src, Root)| == |Files(dest, Root)|
    ensures exists q :: q in Files(src, Root) && q !in Files(dest, Root)
  {
    var a, x := File(Data(1, 1)), File(Data(2, 1));
    src := Dir([Entry("a", a)]);
    var inner := Dir([Entry("x", x)]);
    dest := Dir([Entry("a", inner)]);
    var pa := Child(Root, "a");
    var px := Child(pa, "x");
    OneEntry(Entry("a", a), Root);
    OneEntry(Entry("x", x), pa);
    OneEntry(Entry("a", inner), Root);
    files0, dirs0 := map[px := x.data], {Root, pa};
    assert Within(px, Root) by { assert Within(pa, Root); }
    assert pa in Files(src, Root) && pa !in Files(dest, Root);
  }
}
