/**
 * The numbering of MIME parts: `_parse_attachments` (services/index_service.py) records a number,
 * `extract_attachment_bytes` (routers/restore.py) walks the message again to find the part.
 */
module MimeParts {
  import opened Wrappers

  /**
   * A parsed part. `container` says its content type is multipart; a forwarded message has
   * children without being one, and a broken multipart may have none.
   */
  datatype Part = Part(container: bool, filename: Option<string>, size: Option<nat>, children: seq<Part>)

  datatype Attachment = Attachment(index: nat, filename: string, size: Option<nat>)

  /** `Message.walk`: the part, then its children, depth first. */
  function Walk(p: Part): (w: seq<Part>)
    ensures w != [] && w[0] == p
  {
    [p] + WalkAll(p.children)
  }

  function WalkAll(ps: seq<Part>): seq<Part> {
    if ps == [] then [] else Walk(ps[0]) + WalkAll(ps[1..])
  }

  // ---------------------------------------------------------------------------
  // The order of the walk
  // ---------------------------------------------------------------------------

  /** Child numbers that lead from the part downwards. */
  predicate IsPath(p: Part, path: seq<nat>)
    decreases |path|
  {
    path != [] ==> path[0] < |p.children| && IsPath(p.children[path[0]], path[1..])
  }

  function PartAt(p: Part, path: seq<nat>): Part
    requires IsPath(p, path)
    decreases |path|
  {
    if path == [] then p else PartAt(p.children[path[0]], path[1..])
  }

  /** Document order: a part before what it holds, earlier children before later ones. */
  predicate Precedes(a: seq<nat>, b: seq<nat>)
    decreases |a|
  {
    b != [] && (a == [] || a[0] < b[0] || (a[0] == b[0] && Precedes(a[1..], b[1..])))
  }

  ghost predicate InOrder(paths: seq<seq<nat>>, i: nat, j: nat)
    requires i < |paths| && j < |paths|
  {
    Precedes(paths[i], paths[j])
  }

  ghost predicate Ordered(paths: seq<seq<nat>>) {
    forall i, j {:trigger InOrder(paths, i, j)} :: 0 <= i < j < |paths| ==> InOrder(paths, i, j)
  }

  ghost predicate Leads(p: Part, path: seq<nat>, q: Part) {
    IsPath(p, path) && PartAt(p, path) == q
  }

  /** `paths` lead to the parts of `w`, in the order of `w`. */
  ghost predicate Lead(p: Part, paths: seq<seq<nat>>, w: seq<Part>) {
    |paths| == |w| && forall k :: 0 <= k < |w| ==> Leads(p, paths[k], w[k])
  }

  /** Every path of the part is listed. */
  ghost predicate Complete(p: Part, paths: seq<seq<nat>>) {
    forall path :: IsPath(p, path) ==> path in paths
  }

  /** So is every path through the children from number `i` on, and no other. */
  ghost predicate CompleteFrom(p: Part, i: nat, paths: seq<seq<nat>>) {
    && (forall k :: 0 <= k < |paths| ==> paths[k] != [] && paths[k][0] >= i)
    && (forall path :: IsPath(p, path) && path != [] && path[0] >= i ==> path in paths)
  }

  lemma PathStep(p: Part, i: nat, path: seq<nat>)
    ensures IsPath(p, [i] + path) <==> i < |p.children| && IsPath(p.children[i], path)
    ensures i < |p.children| && IsPath(p.children[i], path) ==> PartAt(p, [i] + path) == PartAt(p.children[i], path)
  {
    assert ([i] + path)[1..] == path;
  }

  lemma StepPrecedes(i: nat, a: seq<nat>, b: seq<nat>)
    ensures Precedes([i] + a, [i] + b) <==> Precedes(a, b)
  {
    assert ([i] + a)[1..] == a && ([i] + b)[1..] == b;
  }

  function Under(i: nat, paths: seq<seq<nat>>): (below: seq<seq<nat>>)
    ensures |below| == |paths| && forall k :: 0 <= k < |paths| ==> below[k] == [i] + paths[k]
  {
    seq(|paths|, k requires 0 <= k < |paths| => [i] + paths[k])
  }

  lemma UnderLeads(p: Part, i: nat, paths: seq<seq<nat>>, w: seq<Part>)
    requires i < |p.children| && Lead(p.children[i], paths, w)
    ensures Lead(p, Under(i, paths), w)
  {
    forall k | 0 <= k < |w| ensures Leads(p, Under(i, paths)[k], w[k]) {
      assert Leads(p.children[i], paths[k], w[k]);
      PathStep(p, i, paths[k]);
    }
  }

  lemma UnderOrdered(i: nat, paths: seq<seq<nat>>)
    requires Ordered(paths)
    ensures Ordered(Under(i, paths))
  {
    forall j, k | 0 <= j < k < |paths| ensures InOrder(Under(i, paths), j, k) {
      assert InOrder(paths, j, k);
      StepPrecedes(i, paths[j], paths[k]);
    }
  }

  lemma UnderComplete(p: Part, i: nat, paths: seq<seq<nat>>, path: seq<nat>)
    requires i < |p.children| && Complete(p.children[i], paths)
    requires IsPath(p, path) && path != [] && path[0] == i
    ensures path in Under(i, paths)
  {
    assert path == [i] + path[1..];
    PathStep(p, i, path[1..]);
    assert path[1..] in paths;
    var k :| 0 <= k < |paths| && paths[k] == path[1..];
    assert Under(i, paths)[k] == path;
  }

  lemma JoinOrdered(a: seq<seq<nat>>, b: seq<seq<nat>>)
    requires Ordered(a) && Ordered(b)
    requires forall i, j :: 0 <= i < |a| && 0 <= j < |b| ==> Precedes(a[i], b[j])
    ensures Ordered(a + b)
  {
    forall i, j | 0 <= i < j < |a + b| ensures InOrder(a + b, i, j) {
      if j < |a| {
        assert InOrder(a, i, j);
      } else if i >= |a| {
        assert InOrder(b, i - |a|, j - |a|);
      }
    }
  }

  lemma JoinLeads(p: Part, a: seq<seq<nat>>, b: seq<seq<nat>>, v: seq<Part>, w: seq<Part>)
    requires Lead(p, a, v) && Lead(p, b, w)
    ensures Lead(p, a + b, v + w)
  {
    forall k | 0 <= k < |v + w| ensures Leads(p, (a + b)[k], (v + w)[k]) {
      if k < |v| {
        assert Leads(p, a[k], v[k]);
      } else {
        assert Leads(p, b[k - |v|], w[k - |v|]);
      }
    }
  }

  lemma OneMoreChild(p: Part, i: nat, inner: seq<seq<nat>>, rest: seq<seq<nat>>)
    requires i < |p.children| && Ordered(inner) && Ordered(rest) && Complete(p.children[i], inner) && CompleteFrom(p, i + 1, rest)
    ensures Ordered(Under(i, inner) + rest) && CompleteFrom(p, i, Under(i, inner) + rest)
  {
    var first := Under(i, inner);
    UnderOrdered(i, inner);
    JoinOrdered(first, rest);
    forall path | IsPath(p, path) && path != [] && path[0] >= i ensures path in first + rest {
      if path[0] == i {
        UnderComplete(p, i, inner, path);
      }
    }
  }

  lemma {:induction false} WalkChildren(p: Part, i: nat) returns (paths: seq<seq<nat>>)
    requires i <= |p.children|
    ensures Lead(p, paths, WalkAll(p.children[i..])) && Ordered(paths) && CompleteFrom(p, i, paths)
    decreases p, |p.children| - i
  {
    if i == |p.children| {
      paths := [];
      NoChildrenLeft(p);
    } else {
      var inner := WalkInOrder(p.children[i]);
      var rest := WalkChildren(p, i + 1);
      OneMoreChild(p, i, inner, rest);
      UnderLeads(p, i, inner, Walk(p.children[i]));
      JoinLeads(p, Under(i, inner), rest, Walk(p.children[i]), WalkAll(p.children[i + 1..]));
      assert p.children[i..][0] == p.children[i] && p.children[i..][1..] == p.children[i + 1..];
      paths := Under(i, inner) + rest;
    }
  }

  lemma NoChildrenLeft(p: Part)
    ensures WalkAll(p.children[|p.children|..]) == [] && CompleteFrom(p, |p.children|, [])
  {
    forall path | IsPath(p, path) && path != [] ensures path[0] < |p.children| {
    }
  }

  lemma OwnPath(p: Part, rest: seq<seq<nat>>)
    requires Ordered(rest) && CompleteFrom(p, 0, rest) && Lead(p, rest, WalkAll(p.children))
    ensures Lead(p, [[]] + rest, Walk(p)) && Ordered([[]] + rest) && Complete(p, [[]] + rest)
  {
    assert Leads(p, [], p);
    JoinLeads(p, [[]], rest, [p], WalkAll(p.children));
    JoinOrdered([[]], rest);
    forall path | IsPath(p, path) ensures path in [[]] + rest {
      assert path == [] || path in rest;
    }
  }

  /** The walk meets every part exactly once, in document order. */
  lemma {:induction false} WalkInOrder(p: Part) returns (paths: seq<seq<nat>>)
    ensures Lead(p, paths, Walk(p)) && Ordered(paths) && Complete(p, paths)
    decreases p, |p.children| + 1
  {
    var rest := WalkChildren(p, 0);
    assert p.children[0..] == p.children;
    OwnPath(p, rest);
    paths := [[]] + rest;
  }

  // ---------------------------------------------------------------------------
  // Numbers
  // ---------------------------------------------------------------------------

  /** How many parts that are not containers come in a walk. */
  function Leaves(w: seq<Part>): nat {
    if w == [] then 0 else Leaves(w[..|w| - 1]) + if w[|w| - 1].container then 0 else 1
  }

  predicate Named(p: Part) {
    p.filename.Some? && p.filename.value != ""
  }

  /** The part at position `k` is an attachment. */
  predicate Attached(w: seq<Part>, k: nat)
    requires k < |w|
  {
    !w[k].container && Named(w[k])
  }

  function RecordOf(w: seq<Part>, k: nat): Attachment
    requires k < |w| && Attached(w, k)
  {
    Attachment(Leaves(w[..k + 1]), w[k].filename.value, w[k].size)
  }

  /** Attachment `a` was recorded from position `k` of the walk. */
  predicate RecordedAt(w: seq<Part>, k: nat, a: Attachment) {
    k < |w| && Attached(w, k) && a == RecordOf(w, k)
  }

  lemma {:induction false} LeavesGrow(w: seq<Part>, i: nat, k: nat)
    requires i <= k <= |w|
    ensures Leaves(w[..i]) <= Leaves(w[..k])
    ensures i < k && !w[k - 1].container ==> Leaves(w[..i]) < Leaves(w[..k])
    decreases k
  {
    if i < k {
      LeavesGrow(w, i, k - 1);
      assert w[..k][..k - 1] == w[..k - 1];
    }
  }

  /** Distinct positions that are not containers have distinct numbers. */
  lemma NumbersDiffer(w: seq<Part>, i: nat, k: nat)
    requires i < |w| && k < |w| && !w[i].container && !w[k].container && Leaves(w[..i + 1]) == Leaves(w[..k + 1])
    ensures i == k
  {
    if i < k {
      LeavesGrow(w, i + 1, k + 1);
    } else if k < i {
      LeavesGrow(w, k + 1, i + 1);
    }
  }

  lemma LeavesStep(w: seq<Part>, k: nat)
    requires k < |w|
    ensures Leaves(w[..k + 1]) == Leaves(w[..k]) + if w[k].container then 0 else 1
  {
    assert w[..k + 1][..k] == w[..k];
  }

  ghost predicate Found(w: seq<Part>, out: seq<Attachment>, from: seq<nat>) {
    && |from| == |out|
    && (forall i :: 0 <= i < |out| ==> RecordedAt(w, from[i], out[i]))
    && (forall i, j :: 0 <= i < j < |out| ==> from[i] < from[j])
  }

  lemma NumbersIncrease(w: seq<Part>, out: seq<Attachment>, from: seq<nat>)
    requires Found(w, out, from)
    ensures forall i, j :: 0 <= i < j < |out| ==> out[i].index < out[j].index
  {
    forall i, j | 0 <= i < j < |out| ensures out[i].index < out[j].index {
      LeavesGrow(w, from[i] + 1, from[j] + 1);
    }
  }

  /** `_parse_attachments`: one record for each named part that is no container, in the order of the walk. */
  method ParseAttachments(msg: Part) returns (out: seq<Attachment>, ghost from: seq<nat>)
    ensures Found(Walk(msg), out, from)
    ensures forall i :: 0 <= i < |out| ==>
              var p := Walk(msg)[from[i]];
              !p.container && p.filename == Some(out[i].filename) && out[i].filename != "" && out[i].size == p.size
    ensures forall i, j :: 0 <= i < j < |out| ==> out[i].index < out[j].index
    ensures forall k :: 0 <= k < |Walk(msg)| && !Walk(msg)[k].container && Walk(msg)[k].filename !in {None, Some("")} ==> k in from
  {
    out, from := RecordAll(Walk(msg));
    NumbersIncrease(Walk(msg), out, from);
  }

  method RecordAll(w: seq<Part>) returns (out: seq<Attachment>, ghost from: seq<nat>)
    ensures Found(w, out, from)
    ensures forall k :: 0 <= k < |w| && Attached(w, k) ==> k in from
  {
    out, from := [], [];
    var partIndex := 0;
    var k := 0;
    while k < |w|
      invariant 0 <= k <= |w| && partIndex == Leaves(w[..k]) && Found(w, out, from)
      invariant forall i :: 0 <= i < |from| ==> from[i] < k
      invariant forall j :: 0 <= j < k && Attached(w, j) ==> j in from
    {
      LeavesStep(w, k);
      if !w[k].container {
        partIndex := partIndex + 1;
        if Named(w[k]) {
          var a := Attachment(partIndex, w[k].filename.value, w[k].size);
          assert RecordedAt(w, k, a);
          out, from := out + [a], from + [k];
        }
      }
      k := k + 1;
    }
  }

  /** The part at position `k` carries number `n`. */
  ghost predicate Numbered(w: seq<Part>, k: nat, n: int) {
    k < |w| && !w[k].container && Leaves(w[..k + 1]) == n
  }

  /** The second walk: the position of the part that carries the number, if there is one. */
  method FindPart(msg: Part, partIndex: int) returns (found: Option<nat>)
    ensures found.Some? ==> Numbered(Walk(msg), found.value, partIndex)
    ensures found.None? ==> forall k :: 0 <= k < |Walk(msg)| ==> !Numbered(Walk(msg), k, partIndex)
  {
    found := FindIn(Walk(msg), partIndex);
  }

  method FindIn(w: seq<Part>, partIndex: int) returns (found: Option<nat>)
    ensures found.Some? ==> Numbered(w, found.value, partIndex)
    ensures found.None? ==> forall k :: 0 <= k < |w| ==> !Numbered(w, k, partIndex)
  {
    var leafIndex := 0;
    var k := 0;
    while k < |w|
      invariant 0 <= k <= |w| && leafIndex == Leaves(w[..k])
      invariant forall j :: 0 <= j < k ==> !Numbered(w, j, partIndex)
    {
      LeavesStep(w, k);
      if !w[k].container {
        leafIndex := leafIndex + 1;
        if leafIndex == partIndex {
          return Some(k);
        }
      }
      k := k + 1;
    }
    return None;
  }

  /** A number recorded by the first walk leads the second one to the very part it was recorded from. */
  method Extract(msg: Part, a: Attachment, ghost k: nat) returns (found: Option<nat>)
    requires RecordedAt(Walk(msg), k, a)
    ensures found == Some(k)
  {
    assert Numbered(Walk(msg), k, a.index);
    found := FindPart(msg, a.index);
    if found.Some? {
      NumbersDiffer(Walk(msg), found.value, k);
    }
  }

  /** Numbers run from 1 without a gap: every number up to the last one names a part. */
  lemma {:induction false} NumbersAreDense(w: seq<Part>, n: nat) returns (k: nat)
    requires 1 <= n <= Leaves(w)
    ensures k < |w| && !w[k].container && Leaves(w[..k + 1]) == n
  {
    var last := |w| - 1;
    assert w[..last + 1] == w;
    if n == Leaves(w) && !w[last].container {
      k := last;
    } else {
      k := NumbersAreDense(w[..last], n);
      assert w[..last][..k + 1] == w[..k + 1];
    }
  }
}
