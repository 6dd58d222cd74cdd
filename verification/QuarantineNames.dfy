/**
 * Names of quarantined folders (services/folder_reconcile.py): how `quarantine_name` writes them
 * and how the regular expression of `original_folder_name` reads them back.
 */
module QuarantineNames {
  import opened Decimal
  import opened Wrappers

  const REMOVED_CONTAINER := "Removed from Source"

  /** "YYYY-MM-DD HHMM". */
  predicate IsStamp(s: string) {
    && |s| == 15 && s[4] == '-' && s[7] == '-' && s[10] == ' '
    && forall i :: 0 <= i < 15 && i != 4 && i != 7 && i != 10 ==> IsDigit(s[i])
  }

  type Stamp = s: string | IsStamp(s) witness "2024-01-01 1000"

  function Fold(c: char): char {
    if c == '/' || c == ':' then '-' else c
  }

  /** "/" and ":" become "-". */
  function Folded(folder: string): (leaf: string)
    ensures |leaf| == |folder|
    ensures forall i :: 0 <= i < |leaf| ==> leaf[i] == Fold(folder[i])
  {
    seq(|folder|, i requires 0 <= i < |folder| => Fold(folder[i]))
  }

  function QuarantineName(folder: string, when: Stamp): string {
    Folded(folder) + " (" + when + ")"
  }

  function CollisionSuffix(n: nat): string {
    " (" + Dec(n) + ")"
  }

  /** Where the folder's own characters and the date stand in the name. */
  ghost predicate Tells(put: string, folder: string, when: Stamp) {
    && |put| >= |folder| + 18 && put[|folder|..|folder| + 2] == " (" && put[|folder| + 2..|folder| + 17] == when
    && forall i :: 0 <= i < |folder| ==> put[i] == if folder[i] in "/:" then '-' else folder[i]
  }

  lemma NameTells(leaf: string, tail: string, folder: string, when: Stamp)
    requires leaf == Folded(folder) && |tail| >= 18 && tail[0] == ' ' && tail[1] == '(' && tail[2..17] == when
    ensures Tells(leaf + tail, folder, when)
  {
    var put := leaf + tail;
    assert put[|folder|..|folder| + 2] == tail[..2] == " (";
    assert put[|folder| + 2..|folder| + 17] == tail[2..17];
  }

  lemma NotInEither(a: string, b: string, c: char)
    requires c !in a && c !in b
    ensures c !in a + b
  {
  }

  /** No path separator and no separator of flags. */
  predicate IsComponent(s: string) {
    '/' !in s && ':' !in s
  }

  lemma ComponentsJoin(a: string, b: string)
    requires IsComponent(a) && IsComponent(b)
    ensures IsComponent(a + b)
  {
    NotInEither(a, b, '/');
    NotInEither(a, b, ':');
  }

  lemma TailIsComponent(when: Stamp, n: Option<nat>)
    ensures IsComponent(Tail(when, n))
  {
    ComponentsJoin(" (", when);
    ComponentsJoin(" (" + when, ")");
    if n.Some? {
      ValueOfDec(n.value);
      ComponentsJoin(" (", Dec(n.value));
      ComponentsJoin(" (" + Dec(n.value), ")");
      ComponentsJoin(" (" + when + ")", CollisionSuffix(n.value));
    } else {
      ComponentsJoin(" (" + when + ")", "");
    }
  }

  /** The name is one path component, it holds no separator of flags, and it tells the folder and the date. */
  lemma NameIsComponent(folder: string, when: Stamp, n: Option<nat>)
    ensures var put := QuarantineName(folder, when) + if n.Some? then CollisionSuffix(n.value) else "";
            '/' !in put && ':' !in put && Tells(put, folder, when)
  {
    TailParts(when, n);
    NameTells(Folded(folder), Tail(when, n), folder, when);
    TailIsComponent(when, n);
    ComponentsJoin(Folded(folder), Tail(when, n));
    PutIs(folder, when, n);
  }

  lemma PutIs(folder: string, when: Stamp, n: Option<nat>)
    ensures QuarantineName(folder, when) + (if n.Some? then CollisionSuffix(n.value) else "") == Folded(folder) + Tail(when, n)
  {
  }

  /** The number of a collision suffix is its number. */
  lemma SuffixNumbers(n: nat)
    ensures var t := CollisionSuffix(n); |t| >= 4 && AllDigits(t[2..|t| - 1]) && Value(t[2..|t| - 1]) == n
  {
    SuffixParts(n);
    ValueOfDec(n);
    assert CollisionSuffix(n)[2..|CollisionSuffix(n)| - 1] == Dec(n);
  }

  // ---------------------------------------------------------------------------
  // The regular expression
  // ---------------------------------------------------------------------------

  /** One or more characters that are not newlines. */
  predicate MatchesName(s: string) {
    s != [] && '\n' !in s
  }

  /** " (YYYY-MM-DD HHMM)" at the head of `t`. */
  predicate Stamped(t: string) {
    |t| >= 18 && t[0] == ' ' && t[1] == '(' && IsStamp(t[2..17]) && t[17] == ')'
  }

  /** The end of the string, or a last newline: what `$` accepts. */
  predicate AtEnd(t: string) {
    t == [] || t == ['\n']
  }

  /** " (digits)" followed by the end, split after `k` characters. */
  predicate NumberedUpTo(t: string, k: nat) {
    && 4 <= k <= |t| && t[0] == ' ' && t[1] == '(' && AllDigits(t[2..k - 1]) && t[k - 1] == ')'
    && AtEnd(t[k..])
  }

  predicate MatchesRest(t: string) {
    Stamped(t) && (AtEnd(t[18..]) || exists k: nat :: k <= |t[18..]| && NumberedUpTo(t[18..], k))
  }

  /** `.+` gives up one character at a time until the rest fits. */
  function LongestName(s: string, i: nat): (r: Option<nat>)
    requires i <= |s|
    ensures r.Some? ==> r.value <= i && MatchesName(s[..r.value]) && MatchesRest(s[r.value..])
  {
    if MatchesName(s[..i]) && MatchesRest(s[i..]) then Some(i)
    else if i == 0 then None
    else LongestName(s, i - 1)
  }

  /** `original_folder_name`. */
  function OriginalFolderName(folderPath: string): string {
    var prefix := REMOVED_CONTAINER + "/";
    if !(prefix <= folderPath) then folderPath
    else
      var name := folderPath[|prefix|..];
      var m := LongestName(name, |name|);
      if m.Some? then name[..m.value] else folderPath
  }

  /** Any other path is read as it stands: only a name of the container with a date behind it is taken apart. */
  lemma OtherNamesStay(folderPath: string)
    requires OriginalFolderName(folderPath) != folderPath
    ensures exists name, rest :: folderPath == Under(name, rest) && MatchesName(name) && MatchesRest(rest) && OriginalFolderName(folderPath) == name
  {
    var prefix := REMOVED_CONTAINER + "/";
    var name := folderPath[|prefix|..];
    var m := LongestName(name, |name|);
    assert folderPath == Under(name[..m.value], name[m.value..]);
  }

  /** A path in the container. */
  function Under(name: string, rest: string): string {
    REMOVED_CONTAINER + "/" + name + rest
  }

  lemma {:induction false} LongestIs(s: string, i: nat, m: nat)
    requires m <= i <= |s| && MatchesName(s[..m]) && MatchesRest(s[m..])
    requires forall j :: m < j <= i ==> !MatchesRest(s[j..])
    ensures LongestName(s, i) == Some(m)
  {
    if i > m {
      LongestIs(s, i - 1, m);
    }
  }

  lemma {:induction false} NoneFits(s: string, i: nat)
    requires i <= |s| && forall j :: 0 <= j <= i ==> !(MatchesName(s[..j]) && MatchesRest(s[j..]))
    ensures LongestName(s, i) == None
  {
    if i > 0 {
      NoneFits(s, i - 1);
    }
  }

  // ---------------------------------------------------------------------------
  // Reading a name back
  // ---------------------------------------------------------------------------

  /** What stands behind the folder's name, with or without a collision suffix. */
  function Tail(when: Stamp, n: Option<nat>): string {
    " (" + when + ")" + if n.Some? then CollisionSuffix(n.value) else ""
  }

  lemma TailParts(when: Stamp, n: Option<nat>)
    ensures var t := Tail(when, n);
            && |t| >= 18 && t[0] == ' ' && t[1] == '(' && t[2..17] == when && t[17] == ')'
            && t[18..] == (if n.Some? then CollisionSuffix(n.value) else "") && t[|t| - 1] == ')'
  {
  }

  lemma SuffixParts(n: nat)
    ensures var t := CollisionSuffix(n);
            && |t| >= 4 && t[0] == ' ' && t[1] == '(' && AllDigits(t[2..|t| - 1]) && t[|t| - 1] == ')'
  {
    ValueOfDec(n);
    assert CollisionSuffix(n)[2..|CollisionSuffix(n)| - 1] == Dec(n);
  }

  lemma TailMatches(when: Stamp, n: Option<nat>)
    ensures MatchesRest(Tail(when, n))
  {
    TailParts(when, n);
    if n.Some? {
      SuffixParts(n.value);
      var t := CollisionSuffix(n.value);
      assert t[|t|..] == [];
      assert NumberedUpTo(t, |t|);
    }
  }

  lemma SuffixChars(n: nat, i: nat)
    requires i < |CollisionSuffix(n)|
    ensures var c := CollisionSuffix(n)[i]; i == 0 || (c != ' ' && c != '-')
  {
    SuffixParts(n);
    if 2 <= i < |CollisionSuffix(n)| - 1 {
      assert CollisionSuffix(n)[2..|CollisionSuffix(n)| - 1][i - 2] == CollisionSuffix(n)[i];
    }
  }

  lemma SuffixIsNoStamp(n: nat, j: nat)
    requires j <= |CollisionSuffix(n)|
    ensures !Stamped(CollisionSuffix(n)[j..])
  {
    var t := CollisionSuffix(n);
    if j < |t| {
      SuffixChars(n, j);
      assert t[j..][0] == t[j];
    }
    if j == 0 && |t| >= 18 {
      SuffixChars(n, 6);
      assert t[0..] == t;
      assert t[2..17][4] == t[6];
    }
  }

  /** The only space of the tail that a bracket follows is its first one, and the one of the suffix. */
  lemma TailSpaces(when: Stamp, n: Option<nat>, j: nat)
    requires 0 < j < 18 && j + 1 < |Tail(when, n)|
    ensures Tail(when, n)[j] != ' ' || Tail(when, n)[j + 1] != '('
  {
    TailParts(when, n);
    var t := Tail(when, n);
    if 2 <= j < 17 {
      assert t[2..17][j - 2] == t[j];
      assert t[2..17][11] == t[13];
    }
  }

  lemma DropAt(s: string, j: nat, i: nat)
    requires j + i < |s|
    ensures s[j..][i] == s[j + i]
  {
  }

  lemma NoLaterMatch(when: Stamp, n: Option<nat>, j: nat)
    requires 0 < j <= |Tail(when, n)|
    ensures !MatchesRest(Tail(when, n)[j..])
  {
    var t := Tail(when, n);
    TailParts(when, n);
    if j >= 18 {
      assert t[j..] == t[18..][j - 18..];
      if n.Some? {
        SuffixIsNoStamp(n.value, j - 18);
      }
    } else if j + 1 < |t| {
      TailSpaces(when, n, j);
      DropAt(t, j, 0);
      DropAt(t, j, 1);
    }
  }

  lemma NumberedHasNoNewline(t: string, k: nat, i: nat)
    requires NumberedUpTo(t, k) && i < k
    ensures t[i] != '\n'
  {
    if 2 <= i < k - 1 {
      assert t[2..k - 1][i - 2] == t[i];
    }
  }

  lemma StampedHasNoNewline(t: string, i: nat)
    requires Stamped(t) && i < 18
    ensures t[i] != '\n'
  {
    if 2 <= i < 17 {
      assert t[2..17][i - 2] == t[i];
    }
  }

  /** A newline is accepted at the very end only. */
  lemma RestHasNoNewline(t: string, i: nat)
    requires MatchesRest(t) && i < |t| && t[i] == '\n'
    ensures i == |t| - 1
  {
    if i < 18 {
      StampedHasNoNewline(t, i);
    } else if !AtEnd(t[18..]) {
      var r := t[18..];
      var k: nat :| k <= |r| && NumberedUpTo(r, k);
      if i - 18 < k {
        NumberedHasNoNewline(r, k, i - 18);
      }
      assert |t| == 18 + k + |r[k..]|;
    }
  }

  lemma FoldedName(folder: string)
    ensures MatchesName(Folded(folder)) <==> MatchesName(folder)
  {
    if '\n' in folder {
      var i :| 0 <= i < |folder| && folder[i] == '\n';
      assert Folded(folder)[i] == '\n';
    }
    if '\n' in Folded(folder) {
      var i :| 0 <= i < |folder| && Folded(folder)[i] == '\n';
      assert folder[i] == '\n';
    }
  }

  lemma BehindName(leaf: string, when: Stamp, n: Option<nat>, j: nat)
    requires |leaf| < j <= |leaf + Tail(when, n)|
    ensures !MatchesRest((leaf + Tail(when, n))[j..])
  {
    NoLaterMatch(when, n, j - |leaf|);
    assert (leaf + Tail(when, n))[j..] == Tail(when, n)[j - |leaf|..];
  }

  lemma GoodNameFits(leaf: string, when: Stamp, n: Option<nat>)
    requires MatchesName(leaf)
    ensures var s := leaf + Tail(when, n); LongestName(s, |s|) == Some(|leaf|)
  {
    var s := leaf + Tail(when, n);
    TailMatches(when, n);
    assert s[..|leaf|] == leaf && s[|leaf|..] == Tail(when, n);
    forall j | |leaf| < j <= |s| ensures !MatchesRest(s[j..]) {
      BehindName(leaf, when, n, j);
    }
    LongestIs(s, |s|, |leaf|);
  }

  lemma NewlineNeverFits(leaf: string, when: Stamp, n: Option<nat>, i: nat, j: nat)
    requires j <= i < |leaf| && leaf[i] == '\n'
    ensures !MatchesRest((leaf + Tail(when, n))[j..])
  {
    var s := leaf + Tail(when, n);
    assert s[j..][i - j] == '\n';
    if MatchesRest(s[j..]) {
      RestHasNoNewline(s[j..], i - j);
    }
  }

  lemma BadNameFails(leaf: string, when: Stamp, n: Option<nat>)
    requires !MatchesName(leaf)
    ensures var s := leaf + Tail(when, n); LongestName(s, |s|) == None
  {
    var s := leaf + Tail(when, n);
    forall j | 0 <= j <= |s| ensures !(MatchesName(s[..j]) && MatchesRest(s[j..])) {
      if j > |leaf| {
        BehindName(leaf, when, n, j);
      } else if leaf != [] {
        var i :| 0 <= i < |leaf| && leaf[i] == '\n';
        if j <= i {
          NewlineNeverFits(leaf, when, n, i, j);
        } else {
          assert s[..j][i] == '\n';
        }
      }
    }
    NoneFits(s, |s|);
  }

  /**
   * The name under which a folder is put away, collision suffix or not, reads back as the folder
   * with its separators folded: for every folder name that is not empty and has no newline, and
   * for no other.
   */
  lemma NameReadsBack(folder: string, when: Stamp, n: Option<nat>)
    ensures var put := QuarantineName(folder, when) + if n.Some? then CollisionSuffix(n.value) else "";
            OriginalFolderName(REMOVED_CONTAINER + "/" + put) == Folded(folder) <==> MatchesName(folder)
  {
    var leaf, prefix := Folded(folder), REMOVED_CONTAINER + "/";
    var s := leaf + Tail(when, n);
    var put := QuarantineName(folder, when) + if n.Some? then CollisionSuffix(n.value) else "";
    PutIs(folder, when, n);
    assert (prefix + s)[|prefix|..] == s;
    FoldedName(folder);
    if MatchesName(leaf) {
      GoodNameFits(leaf, when, n);
      assert s[..|leaf|] == leaf;
    } else {
      BadNameFails(leaf, when, n);
    }
  }
}
