/**
 * Restored trees (services/recovery_service.py): where the mail root is found inside one, and
 * which directory `delete_recovery` removes.
 */
module Recovery {
  import opened Wrappers

  /** An absolute path, component by component; the root directory is []. */
  type Path = seq<string>

  const OFFSITE := ".offsite-restore"

  predicate StandsAt(s: string, part: string, i: nat) {
    i + |part| <= |s| && s[i..i + |part|] == part
  }

  /** `part in s`. */
  predicate Contains(s: string, part: string) {
    exists i :: 0 <= i <= |s| && StandsAt(s, part, i)
  }

  /** The path, written out, contains the marker: some component does, since the marker has no slash. */
  predicate Offsite(p: Path) {
    exists i :: 0 <= i < |p| && Contains(p[i], OFFSITE)
  }

  /** The path as it is written. */
  function Written(p: Path): string {
    if p == [] then "" else Written(p[..|p| - 1]) + "/" + p[|p| - 1]
  }

  lemma StandsIn(a: string, b: string, part: string, i: nat)
    ensures StandsAt(a, part, i) ==> StandsAt(a + b, part, i)
    ensures StandsAt(b, part, i) ==> StandsAt(a + b, part, |a| + i)
  {
    if StandsAt(a, part, i) {
      assert (a + b)[i..i + |part|] == a[i..i + |part|];
    }
    if StandsAt(b, part, i) {
      assert (a + b)[|a| + i..|a| + i + |part|] == b[i..i + |part|];
    }
  }

  lemma SlashInside(s: string, part: string, i: nat, k: nat)
    requires StandsAt(s, part, i) && i <= k < i + |part| && s[k] == '/'
    ensures '/' in part
  {
    assert s[i..i + |part|][k - i] == s[k];
    assert part[k - i] in part;
  }

  /** A part without a slash stands on one side of a slash or on the other. */
  lemma NotAcross(a: string, b: string, part: string, i: nat)
    requires StandsAt(a + "/" + b, part, i) && '/' !in part
    ensures StandsAt(a, part, i) || (i > |a| && StandsAt(b, part, i - |a| - 1))
  {
    var s := a + "/" + b;
    if i > |a| {
      assert s[i..i + |part|] == b[i - |a| - 1..i - |a| - 1 + |part|];
    } else if i + |part| <= |a| {
      assert s[i..i + |part|] == a[i..i + |part|];
    } else {
      SlashInside(s, part, i, |a|);
    }
  }

  lemma ContainsSplits(a: string, b: string, part: string)
    requires '/' !in part && part != ""
    ensures Contains(a + "/" + b, part) <==> Contains(a, part) || Contains(b, part)
  {
    var s := a + "/" + b;
    assert s == a + ("/" + b) && s == (a + "/") + b;
    if Contains(s, part) {
      var i :| 0 <= i <= |s| && StandsAt(s, part, i);
      NotAcross(a, b, part, i);
    }
    if Contains(a, part) {
      var i :| 0 <= i <= |a| && StandsAt(a, part, i);
      StandsIn(a, "/" + b, part, i);
    }
    if Contains(b, part) {
      var i :| 0 <= i <= |b| && StandsAt(b, part, i);
      StandsIn(a + "/", b, part, i);
    }
  }

  /** The written path contains the marker exactly when one of its components does. */
  lemma {:induction false} OffsiteAsWritten(p: Path)
    ensures Contains(Written(p), ".offsite-restore") <==> Offsite(p)
  {
    if p == [] {
      assert forall i :: !StandsAt("", OFFSITE, i);
    } else {
      var init, last := p[..|p| - 1], p[|p| - 1];
      OffsiteAsWritten(init);
      ContainsSplits(Written(init), last, OFFSITE);
      assert p == init + [last];
      assert forall i :: 0 <= i < |init| ==> p[i] == init[i];
    }
  }

  /** The component names a restore of the account. */
  predicate Wraps(name: string, account: string) {
    account + "-" <= name
  }

  // ---------------------------------------------------------------------------
  // Deleting a recovery
  // ---------------------------------------------------------------------------

  /** The first `k` components are a wrapper directory of the account. */
  ghost predicate WrapperAt(p: Path, account: string, k: nat) {
    0 < k <= |p| && Wraps(p[k - 1], account) && Offsite(p[..k - 1])
  }

  /** `target` is the innermost wrapper around the path, or the path itself if there is none. */
  ghost predicate Targets(path: Path, account: string, target: Path) {
    && target <= path && (forall k :: |target| < k <= |path| ==> !WrapperAt(path, account, k))
    && (WrapperAt(path, account, |target|) || (target == path && forall k :: 0 < k <= |path| ==> !WrapperAt(path, account, k)))
  }

  /** The upward walk of `delete_recovery`: the innermost wrapper around the path, else the path itself. */
  method DeletionTarget(path: Path, account: string) returns (target: Path)
    ensures Targets(path, account, target)
  {
    var parent := path;
    while parent != [] && Offsite(parent)
      invariant parent <= path
      invariant forall k :: |parent| < k <= |path| ==> !WrapperAt(path, account, k)
      decreases |parent|
    {
      var head, tail := parent[..|parent| - 1], parent[|parent| - 1];
      assert head == path[..|parent| - 1] && parent == path[..|parent|];
      if Wraps(tail, account) && Offsite(head) {
        return parent;
      }
      parent := head;
    }
    NoWrapperAbove(path, account, |parent|);
    return path;
  }

  lemma OffsiteBelow(path: Path, m: nat, n: nat)
    requires m <= n <= |path| && Offsite(path[..m])
    ensures Offsite(path[..n])
  {
    var i :| 0 <= i < m && Contains(path[..m][i], OFFSITE);
    assert path[..n][i] == path[..m][i];
  }

  lemma NoWrapperAbove(path: Path, account: string, n: nat)
    requires n <= |path| && (n == 0 || !Offsite(path[..n]))
    ensures forall k :: 0 < k <= n ==> !WrapperAt(path, account, k)
  {
    forall k | 0 < k <= n ensures !WrapperAt(path, account, k) {
      if Offsite(path[..k - 1]) {
        OffsiteBelow(path, k - 1, n);
      }
    }
  }

  // ---------------------------------------------------------------------------
  // Where the mail root is
  // ---------------------------------------------------------------------------

  /** `_build_restore_root`: <store>/.offsite-restore/<account>-<timestamp>. */
  function RestoreRoot(store: Path, account: string, timestamp: string): Path {
    store + [OFFSITE, account + "-" + timestamp]
  }

  lemma RestoreRootWraps(store: Path, account: string, timestamp: string, inner: Path)
    ensures WrapperAt(RestoreRoot(store, account, timestamp) + inner, account, |store| + 2)
  {
    var p := RestoreRoot(store, account, timestamp) + inner;
    assert StandsAt(OFFSITE, OFFSITE, 0);
    assert p[..|store| + 1][|store|] == OFFSITE;
    assert p[|store| + 1] == account + "-" + timestamp;
  }

  /** No component inside the restored tree looks like a wrapper of the account. */
  ghost predicate PlainInside(inner: Path, account: string) {
    forall i :: 0 <= i < |inner| ==> !(account + "-" <= inner[i])
  }

  lemma InnerWrapper(store: Path, account: string, timestamp: string, inner: Path, k: nat)
    requires |store| + 2 < k <= |store| + 2 + |inner|
    ensures WrapperAt(RestoreRoot(store, account, timestamp) + inner, account, k) <==> Wraps(inner[k - |store| - 3], account)
  {
    var p := RestoreRoot(store, account, timestamp) + inner;
    assert p[k - 1] == inner[k - |store| - 3];
    assert StandsAt(OFFSITE, OFFSITE, 0);
    assert p[..k - 1][|store|] == OFFSITE;
  }

  /** From inside a restored tree the walk stops at the wrapper, exactly when nothing inside looks like one. */
  lemma TargetIsWrapper(store: Path, account: string, timestamp: string, inner: Path, target: Path)
    requires Targets(RestoreRoot(store, account, timestamp) + inner, account, target)
    ensures target == RestoreRoot(store, account, timestamp) <==> PlainInside(inner, account)
  {
    var p := RestoreRoot(store, account, timestamp) + inner;
    RestoreRootWraps(store, account, timestamp, inner);
    assert p[..|store| + 2] == RestoreRoot(store, account, timestamp);
    forall k | |store| + 2 < k <= |p| ensures WrapperAt(p, account, k) <==> Wraps(inner[k - |store| - 3], account) {
      InnerWrapper(store, account, timestamp, inner, k);
    }
    if !PlainInside(inner, account) {
      var i :| 0 <= i < |inner| && Wraps(inner[i], account);
      assert WrapperAt(p, account, |store| + 3 + i);
    }
  }

  /** `os.path.commonpath`: the longest path all of them start with. */
  function Common(a: Path, b: Path): (c: Path)
    ensures c <= a && c <= b
  {
    if a == [] || b == [] || a[0] != b[0] then [] else [a[0]] + Common(a[1..], b[1..])
  }

  lemma {:induction false} CommonIsLongest(a: Path, b: Path, c: Path)
    requires c <= a && c <= b
    ensures c <= Common(a, b)
  {
    if c != [] {
      assert c[1..] <= a[1..] && c[1..] <= b[1..];
      CommonIsLongest(a[1..], b[1..], c[1..]);
      assert c == [c[0]] + c[1..];
    }
  }

  const TRIPLET := {"cur", "new", "tmp"}

  /** A mail folder: a directory with all three of cur, new and tmp. */
  predicate IsMailFolder(dirs: set<Path>, d: Path) {
    d in dirs && forall s :: s in TRIPLET ==> d + [s] in dirs
  }

  predicate InTree(dirs: set<Path>, root: Path, d: Path) {
    d in dirs && root <= d
  }

  function Parent(d: Path): Path {
    if d == [] then [] else d[..|d| - 1]
  }

  /** A directory of the tree with the three directories of a mail folder in it. */
  ghost predicate HoldsMail(dirs: set<Path>, root: Path, d: Path) {
    InTree(dirs, root, d) && d + ["cur"] in dirs && d + ["new"] in dirs && d + ["tmp"] in dirs
  }

  /** `above` is above every mail folder of the tree; the root directory is its own parent. */
  ghost predicate AboveAll(dirs: set<Path>, root: Path, above: Path) {
    forall d :: HoldsMail(dirs, root, d) ==> above <= d && (d != [] ==> above != d)
  }

  ghost predicate HasMail(dirs: set<Path>, root: Path) {
    exists d :: HoldsMail(dirs, root, d)
  }

  lemma MailFolderMeans(dirs: set<Path>, root: Path, d: Path, above: Path)
    ensures HoldsMail(dirs, root, d) <==> InTree(dirs, root, d) && IsMailFolder(dirs, d)
    ensures above <= Parent(d) <==> above <= d && (d != [] ==> above != d)
  {
  }

  /** The fallback: the deepest directory above every mail folder, and never one above the tree. */
  ghost predicate IsMailRoot(dirs: set<Path>, root: Path, r: Path) {
    if HasMail(dirs, root) && AboveAll(dirs, root, root) then
      AboveAll(dirs, root, r) && forall c :: AboveAll(dirs, root, c) ==> c <= r
    else r == root
  }

  predicate IsNamed(dirs: set<Path>, root: Path, name: string, d: Path) {
    InTree(dirs, root, d) && d != [] && d[|d| - 1] == name
  }

  /** A directory of that name, met on the way down before any other below it. */
  ghost predicate FirstNamed(dirs: set<Path>, root: Path, name: string, r: Path) {
    IsNamed(dirs, root, name, r) && forall k :: 0 <= k < |r| ==> !IsNamed(dirs, root, name, r[..k])
  }

  /** The repository prefix decides only if it is not empty and a directory has that name. */
  ghost predicate PrefixDecides(dirs: set<Path>, root: Path, repoPrefix: Option<string>) {
    repoPrefix.Some? && repoPrefix.value != "" && exists d :: IsNamed(dirs, root, repoPrefix.value, d)
  }

  /**
   * `_resolve_maildir_inside_restore`: the original path, else a directory named like the
   * repository prefix, else the mail root; the result never leaves the restored tree.
   */
  method ResolveMaildir(dirs: set<Path>, root: Path, maildir: Path, repoPrefix: Option<string>) returns (r: Path)
    ensures root <= r
    ensures if root + maildir in dirs then r == root + maildir
            else if PrefixDecides(dirs, root, repoPrefix) then FirstNamed(dirs, root, repoPrefix.value, r)
            else IsMailRoot(dirs, root, r)
  {
    if root + maildir in dirs {
      return root + maildir;
    }
    if repoPrefix.Some? && repoPrefix.value != "" {
      var named := WalkToName(dirs, root, repoPrefix.value);
      if named.Some? {
        return named.value;
      }
    }
    r := CommonParent(dirs, root);
  }

  /** `os.walk` goes top down: it meets a directory after those above it. */
  method WalkToName(dirs: set<Path>, root: Path, name: string) returns (r: Option<Path>)
    ensures r.None? <==> !exists d :: IsNamed(dirs, root, name, d)
    ensures r.Some? ==> FirstNamed(dirs, root, name, r.value)
  {
    var named := set d | d in dirs && IsNamed(dirs, root, name, d);
    if named == {} {
      assert forall d :: IsNamed(dirs, root, name, d) ==> d in named;
      return None;
    }
    var d := Choose(named);
    var k := 0;
    while k < |d| && !IsNamed(dirs, root, name, d[..k])
      invariant 0 <= k <= |d| && forall i :: 0 <= i < k ==> !IsNamed(dirs, root, name, d[..i])
    {
      k := k + 1;
    }
    assert d[..|d|] == d;
    assert forall i :: 0 <= i < k ==> d[..k][..i] == d[..i];
    return Some(d[..k]);
  }

  /** What is known of the common parent of the folders met so far. */
  ghost predicate CommonSoFar(dirs: set<Path>, root: Path, met: set<Path>, common: Path) {
    && (forall d :: d in met ==> common <= Parent(d))
    && (forall c :: AboveAll(dirs, root, c) ==> c <= common)
  }

  lemma NextFolder(dirs: set<Path>, root: Path, met: set<Path>, common: Path, d: Path)
    requires CommonSoFar(dirs, root, met, common) && InTree(dirs, root, d) && IsMailFolder(dirs, d)
    ensures CommonSoFar(dirs, root, met + {d}, Common(common, Parent(d)))
  {
    forall c | AboveAll(dirs, root, c) ensures c <= Common(common, Parent(d)) {
      MailFolderMeans(dirs, root, d, c);
      CommonIsLongest(common, Parent(d), c);
    }
    PrefixThrough(met, Common(common, Parent(d)), common);
  }

  lemma PrefixThrough(met: set<Path>, shorter: Path, common: Path)
    requires shorter <= common && forall d :: d in met ==> common <= Parent(d)
    ensures forall d :: d in met ==> shorter <= Parent(d)
  {
  }

  method CommonParent(dirs: set<Path>, root: Path) returns (r: Path)
    ensures root <= r && IsMailRoot(dirs, root, r)
  {
    var folders := set d | d in dirs && root <= d && IsMailFolder(dirs, d);
    forall d ensures d in folders <==> HoldsMail(dirs, root, d) {
      MailFolderMeans(dirs, root, d, d);
    }
    if folders == {} {
      return root;
    }
    var common := CommonOf(dirs, root, folders);
    forall d | HoldsMail(dirs, root, d) ensures common <= d && (d != [] ==> common != d) {
      MailFolderMeans(dirs, root, d, common);
    }
    if root <= common {
      return common;
    }
    return root;
  }

  method CommonOf(dirs: set<Path>, root: Path, folders: set<Path>) returns (common: Path)
    requires folders != {} && forall d :: d in folders ==> InTree(dirs, root, d) && IsMailFolder(dirs, d)
    ensures CommonSoFar(dirs, root, folders, common)
  {
    var first := Choose(folders);
    var todo := folders - {first};
    common := Parent(first);
    assert folders - todo == {first};
    forall c | AboveAll(dirs, root, c) ensures c <= common {
      MailFolderMeans(dirs, root, first, c);
    }
    while todo != {}
      invariant todo <= folders && CommonSoFar(dirs, root, folders - todo, common)
      decreases |todo|
    {
      var d := Choose(todo);
      NextFolder(dirs, root, folders - todo, common, d);
      assert folders - (todo - {d}) == (folders - todo) + {d};
      todo := todo - {d};
      common := Common(common, Parent(d));
    }
    assert folders - todo == folders;
  }

  // ---------------------------------------------------------------------------
  // Rows and disk
  // ---------------------------------------------------------------------------

  datatype Row = Row(account: string, restorePath: Path)

  class Recoveries {
    var rows: map<string, Row>
    var disk: set<Path>

    /** What is left on disk when `target` is removed with everything below it. */
    ghost predicate Removed(before: set<Path>, target: Path)
      reads this
    {
      forall p :: p in disk <==> p in before && !(target <= p)
    }

    /**
     * `delete_recovery`: the row goes; the disk loses the whole wrapper directory of the restore
     * and nothing else, whatever the mail root inside it was, unless a directory in between is
     * named like a wrapper itself. A tree that cannot be removed is left behind.
     */
    method DeleteRecovery(id: string, scope: Option<string>, removable: bool)
      returns (deleted: bool, ghost target: Path)
      modifies this
      ensures deleted <==> id in old(rows) && (scope.Some? ==> old(rows)[id].account == scope.value)
      ensures !deleted ==> rows == old(rows) && disk == old(disk)
      ensures deleted ==>
                && rows == old(rows) - {id}
                && Targets(old(rows)[id].restorePath, old(rows)[id].account, target)
                && (if removable && target in old(disk) then Removed(old(disk), target) else disk == old(disk))
      ensures forall store, timestamp, inner ::
                deleted && old(rows)[id].restorePath == RestoreRoot(store, old(rows)[id].account, timestamp) + inner
                ==> (target == RestoreRoot(store, old(rows)[id].account, timestamp) <==> PlainInside(inner, old(rows)[id].account))
    {
      if id !in rows || (scope.Some? && rows[id].account != scope.value) {
        return false, [];
      }
      var row := rows[id];
      var tree := DeletionTarget(row.restorePath, row.account);
      target := tree;
      forall store, timestamp, inner | row.restorePath == RestoreRoot(store, row.account, timestamp) + inner
        ensures target == RestoreRoot(store, row.account, timestamp) <==> PlainInside(inner, row.account)
      {
        TargetIsWrapper(store, row.account, timestamp, inner, target);
      }
      if tree in disk && removable {
        disk := set p | p in disk && !(tree <= p);
      }
      rows := rows - {id};
      deleted := true;
    }
  }
}
