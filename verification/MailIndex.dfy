/**
 * The mail index: one row per message hash, brought back into agreement with the
 * Maildir tree by `upsert_message_set`.
 *
 * A file is known by its coordinates (folder, name). Maildir files are content-immutable:
 * every change on disk is a rename, an arrival or a removal. That assumption is the ghost
 * function `world`, which gives the one content a pair of coordinates can ever name.
 */
module MailIndex {
  import opened Wrappers

  /** The 20-byte SHA-1 of the Message-Id, read as a number. */
  type Hash = int
  /** An address, numbered in string order. */
  type Addr = int

  datatype Coords = Coords(folder: string, name: string)
  datatype Recipients = Recipients(to: seq<Addr>, cc: seq<Addr>, bcc: seq<Addr>)

  /** What the header parser can get out of a file: nothing when it is unreadable. */
  datatype Content = Content(readable: bool, messageId: Option<Hash>, recips: Recipients)
  datatype MailFile = MailFile(coords: Coords, content: Content)

  /** `pending`: recipients_indexed_at is null; `alive`: deleted_at is null. */
  datatype Row = Row(coords: Coords, recips: Recipients, pending: bool, alive: bool)

  datatype Stored = Stored(coords: Coords, isDeleted: bool)

  type Rows = map<Hash, Row>
  type World = Coords -> Content

  function ParsedHash(c: Content): Option<Hash> {
    if c.readable then c.messageId else None
  }

  predicate IsCopy(f: MailFile, h: Hash) {
    ParsedHash(f.content) == Some(h)
  }

  // ---------------------------------------------------------------------------
  // What a scan from scratch would say about a walk of the tree
  // ---------------------------------------------------------------------------

  /** The hashes of the parseable files. */
  ghost function Scan(w: seq<MailFile>): set<Hash> {
    if w == [] then {}
    else Scan(w[..|w| - 1]) + match ParsedHash(w[|w| - 1].content) { case Some(h) => {h} case None => {} }
  }

  ghost function Names(w: seq<MailFile>): set<Coords> {
    if w == [] then {} else Names(w[..|w| - 1]) + {w[|w| - 1].coords}
  }

  /** Every Bcc address on a copy of `h` outside the coordinates `except`. */
  ghost function BccOf(w: seq<MailFile>, h: Hash, except: set<Coords>): set<Addr> {
    if w == [] then {}
    else
      var last := w[|w| - 1];
      BccOf(w[..|w| - 1], h, except) +
      if IsCopy(last, h) && last.coords !in except then Elems(last.content.recips.bcc) else {}
  }

  /** The first copy of `h` the walk meets outside the coordinates `except`. */
  ghost function FirstCopy(w: seq<MailFile>, h: Hash, except: set<Coords>): Option<MailFile> {
    if w == [] then None
    else
      var before, last := FirstCopy(w[..|w| - 1], h, except), w[|w| - 1];
      if before.Some? then before
      else if IsCopy(last, h) && last.coords !in except then Some(last)
      else None
  }

  lemma {:induction false} ScanFinds(w: seq<MailFile>, h: Hash)
    ensures h in Scan(w) <==> FirstCopy(w, h, {}).Some?
  {
    if w != [] {
      ScanFinds(w[..|w| - 1], h);
    }
  }

  lemma ScanMeans(w: seq<MailFile>, h: Hash)
    ensures h in Scan(w) <==> exists f :: f in w && IsCopy(f, h)
  {
    ScanFinds(w, h);
    FirstCopyMeans(w, h, {});
  }

  lemma {:induction false} NamesMean(w: seq<MailFile>, c: Coords)
    ensures c in Names(w) <==> exists f :: f in w && f.coords == c
  {
    if w != [] {
      assert w == w[..|w| - 1] + [w[|w| - 1]];
      NamesMean(w[..|w| - 1], c);
    }
  }

  lemma {:induction false} BccMeans(w: seq<MailFile>, h: Hash, except: set<Coords>, a: Addr)
    ensures a in BccOf(w, h, except) <==>
            exists f :: f in w && IsCopy(f, h) && f.coords !in except && a in f.content.recips.bcc
  {
    if w != [] {
      assert w == w[..|w| - 1] + [w[|w| - 1]];
      BccMeans(w[..|w| - 1], h, except, a);
    }
  }

  lemma {:induction false} FirstCopyMeans(w: seq<MailFile>, h: Hash, except: set<Coords>)
    ensures match FirstCopy(w, h, except)
            case Some(f) => f in w && IsCopy(f, h) && f.coords !in except
            case None => forall f :: f in w && IsCopy(f, h) ==> f.coords in except
  {
    if w != [] {
      assert w == w[..|w| - 1] + [w[|w| - 1]];
      FirstCopyMeans(w[..|w| - 1], h, except);
    }
  }

  function Elems(s: seq<Addr>): set<Addr> {
    set a | a in s
  }

  // ---------------------------------------------------------------------------
  // The reconciled index, row by row
  // ---------------------------------------------------------------------------

  /** A row indexed before Cc/Bcc were is re-read when its own file is met. */
  ghost function Reread(world: World, w: seq<MailFile>, r: Row): Row {
    if r.pending && r.coords in Names(w)
    then r.(recips := world(r.coords).recips, pending := false)
    else r
  }

  function NewRow(f: MailFile): Row {
    Row(f.coords, f.content.recips, false, true)
  }

  /** The row of `h` after the walk, before Bcc merging and relocation. */
  ghost function Base(world: World, rows0: Rows, w: seq<MailFile>, h: Hash): Row
    requires h in rows0 || h in Scan(w)
  {
    ScanFinds(w, h);
    if h in rows0 then Reread(world, w, rows0[h]) else NewRow(FirstCopy(w, h, {}).value)
  }

  ghost predicate Increasing(s: seq<Addr>) {
    forall i, j :: 0 <= i < j < |s| ==> s[i] < s[j]
  }

  /** `after` keeps `before` in front and adds each new address exactly once, in order. */
  ghost predicate MergedBcc(before: seq<Addr>, extra: set<Addr>, after: seq<Addr>) {
    && before <= after
    && Elems(after) == Elems(before) + extra
    && |after| == |before| + |extra - Elems(before)|
    && Increasing(after[|before|..])
  }

  ghost predicate Merged(w: seq<MailFile>, h: Hash, base: Row, r: Row) {
    && r == base.(recips := base.recips.(bcc := r.recips.bcc))
    && MergedBcc(base.recips.bcc, BccOf(w, h, {base.coords}), r.recips.bcc)
  }

  ghost function PlacedAt(w: seq<MailFile>, h: Hash, c: Coords): Coords {
    ScanFinds(w, h);
    if h in Scan(w) && c !in Names(w) then FirstCopy(w, h, {}).value.coords else c
  }

  ghost predicate Settled(w: seq<MailFile>, h: Hash, base: Row, r: Row) {
    && r.coords == PlacedAt(w, h, base.coords)
    && r.alive == (h in Scan(w))
    && Merged(w, h, base, r.(coords := base.coords, alive := base.alive))
  }

  /** The whole effect of one complete walk on the table. */
  ghost predicate Reconciled(world: World, rows0: Rows, w: seq<MailFile>, rows1: Rows) {
    && rows1.Keys == rows0.Keys + Scan(w)
    && forall h :: h in rows1 ==> Settled(w, h, Base(world, rows0, w, h), rows1[h])
  }

  /** The files on disk hold what `world` says, and each pointer on disk holds its row's hash. */
  ghost predicate Grounded(world: World, w: seq<MailFile>, rows: Rows) {
    && (forall f :: f in w ==> f.content == world(f.coords))
    && (forall h :: h in rows && rows[h].coords in Names(w) ==> ParsedHash(world(rows[h].coords)) == Some(h))
  }

  // ---------------------------------------------------------------------------
  // How many rows a walk writes
  // ---------------------------------------------------------------------------

  ghost function Rereads(rows0: Rows, w: seq<MailFile>): set<Hash> {
    set h | h in rows0 && rows0[h].pending && rows0[h].coords in Names(w)
  }

  ghost function Merges(world: World, rows0: Rows, w: seq<MailFile>): set<Hash> {
    set h | h in Scan(w) && BccOf(w, h, {Base(world, rows0, w, h).coords}) - Elems(Base(world, rows0, w, h).recips.bcc) != {}
  }

  ghost function Moves(rows0: Rows, w: seq<MailFile>): set<Hash> {
    set h | h in rows0 && h in Scan(w) && (rows0[h].coords !in Names(w) || !rows0[h].alive)
  }

  ghost function Vanished(rows0: Rows, w: seq<MailFile>): set<Hash> {
    set h | h in rows0 && rows0[h].alive && h !in Scan(w)
  }

  ghost function Writes(world: World, rows0: Rows, w: seq<MailFile>): nat {
    |Rereads(rows0, w)| + |Scan(w) - rows0.Keys| + |Merges(world, rows0, w)| + |Moves(rows0, w)| + |Vanished(rows0, w)|
  }

  // ---------------------------------------------------------------------------
  // One file more
  // ---------------------------------------------------------------------------

  lemma Extend(w: seq<MailFile>, f: MailFile)
    ensures Names(w + [f]) == Names(w) + {f.coords}
    ensures Scan(w + [f]) == Scan(w) + match ParsedHash(f.content) { case Some(h) => {h} case None => {} }
  {
    assert (w + [f])[..|w|] == w;
  }

  lemma ExtendCopies(w: seq<MailFile>, f: MailFile, h: Hash, except: set<Coords>)
    ensures FirstCopy(w + [f], h, except) ==
            if FirstCopy(w, h, except).Some? then FirstCopy(w, h, except)
            else if IsCopy(f, h) && f.coords !in except then Some(f) else None
    ensures BccOf(w + [f], h, except) ==
            BccOf(w, h, except) + if IsCopy(f, h) && f.coords !in except then Elems(f.content.recips.bcc) else {}
  {
    assert (w + [f])[..|w|] == w;
  }

  lemma {:induction false} NoStoredCopy(w: seq<MailFile>, h: Hash, c: Coords)
    requires c !in Names(w)
    ensures FirstCopy(w, h, {c}) == FirstCopy(w, h, {})
  {
    if w != [] {
      NoStoredCopy(w[..|w| - 1], h, c);
    }
  }

  // ---------------------------------------------------------------------------
  // Every state the table passes through
  // ---------------------------------------------------------------------------

  /** A row that is not pending already carries the Bcc of the file it points at. */
  ghost predicate Carries(world: World, r: Row) {
    !r.pending ==> Elems(world(r.coords).recips.bcc) <= Elems(r.recips.bcc)
  }

  ghost predicate RecipientsKept(world: World, rows: Rows) {
    forall h :: h in rows ==> Carries(world, rows[h])
  }

  /** The same To and Cc; Bcc is merged from every copy. */
  ghost predicate SameHeaders(a: Recipients, b: Recipients) {
    a.to == b.to && a.cc == b.cc
  }

  /** The row has the To and Cc of one content with its hash. */
  ghost predicate Headed(world: World, h: Hash, r: Row) {
    exists c: Coords :: ParsedHash(world(c)) == Some(h) && SameHeaders(r.recips, world(c).recips)
  }

  /** What holds of one row at any moment of a walk over `w`. */
  ghost predicate MidRow(world: World, rows0: Rows, w: seq<MailFile>, h: Hash, r: Row) {
    && ((h in rows0 && r.coords == rows0[h].coords) || exists f :: f in w && IsCopy(f, h) && f.coords == r.coords)
    && (h in rows0 && rows0[h].coords in Names(w) ==> r.coords == rows0[h].coords)
    && (h in rows0 && !rows0[h].pending ==> !r.pending && rows0[h].recips.bcc <= r.recips.bcc)
    && (RecipientsKept(world, rows0) ==> Carries(world, r))
    && (if h in rows0 && r.pending == rows0[h].pending then SameHeaders(r.recips, rows0[h].recips) else !r.pending && Headed(world, h, r))
  }

  ghost predicate Midway(world: World, rows0: Rows, w: seq<MailFile>, s: Rows) {
    && rows0.Keys <= s.Keys <= rows0.Keys + Scan(w)
    && forall h :: h in s ==> MidRow(world, rows0, w, h, s[h])
  }

  // ---------------------------------------------------------------------------
  // The accumulators of a walk, and what one file does to them
  // ---------------------------------------------------------------------------

  /** `log` holds every state the table has been in: a crash or an early commit leaves one of them. */
  datatype Table = Table(rows: Rows, touched: nat, log: seq<Rows>) {
    function Write(h: Hash, r: Row): Table {
      Table(rows[h := r], touched + 1, log + [rows[h := r]])
    }
  }

  datatype Walk = Walk(
    db: Table, byFile: map<Coords, Hash>, byHash: map<Hash, Stored>, recipientsPending: set<Hash>,
    seenHashes: set<Hash>, seenFiles: set<Coords>, relocations: map<Hash, Coords>, dupBcc: map<Hash, set<Addr>>)

  function Visit(t: Walk, f: MailFile): Walk {
    if f.coords in t.byFile then VisitKnown(t, f, t.byFile[f.coords])
    else if ParsedHash(f.content).None? then t.(seenFiles := t.seenFiles + {f.coords})
    else if ParsedHash(f.content).value in t.byHash then VisitCopy(t, f, ParsedHash(f.content).value)
    else VisitNew(t, f, ParsedHash(f.content).value)
  }

  function VisitKnown(t: Walk, f: MailFile, h: Hash): Walk {
    t.(seenFiles := t.seenFiles + {f.coords},
       seenHashes := t.seenHashes + {h},
       recipientsPending := t.recipientsPending - {h},
       db := if h in t.recipientsPending && f.content.readable && h in t.db.rows
             then t.db.Write(h, t.db.rows[h].(recips := f.content.recips, pending := false))
             else t.db)
  }

  function VisitCopy(t: Walk, f: MailFile, h: Hash): Walk {
    t.(seenFiles := t.seenFiles + {f.coords},
       seenHashes := t.seenHashes + {h},
       relocations := if h in t.relocations then t.relocations else t.relocations[h := f.coords],
       dupBcc := if f.content.recips.bcc == [] then t.dupBcc
                 else t.dupBcc[h := (if h in t.dupBcc then t.dupBcc[h] else {}) + Elems(f.content.recips.bcc)])
  }

  function VisitNew(t: Walk, f: MailFile, h: Hash): Walk {
    t.(seenFiles := t.seenFiles + {f.coords},
       seenHashes := t.seenHashes + {h},
       byHash := t.byHash[h := Stored(f.coords, false)],
       byFile := t.byFile[f.coords := h],
       db := t.db.Write(h, NewRow(f)))
  }

  /** The two lookup tables agree with the rows: every row is found under its own coordinates' name. */
  ghost predicate TablesAgree(rows: Rows, byFile: map<Coords, Hash>, byHash: map<Hash, Stored>) {
    && byHash.Keys == rows.Keys
    && (forall h :: h in rows ==> byHash[h] == Stored(rows[h].coords, !rows[h].alive) && rows[h].coords in byFile)
    && (forall c :: c in byFile ==> byFile[c] in rows && rows[byFile[c]].coords == c)
  }

  /** Every seen hash has its stored pointer among the seen files, or a relocation. */
  ghost predicate Covered(t: Walk) {
    && t.dupBcc.Keys <= t.seenHashes <= t.db.rows.Keys
    && (forall h :: h in t.seenHashes ==> t.db.rows[h].coords in t.seenFiles || h in t.relocations)
  }

  /** What holds for every disk and every table with one row a hash. */
  ghost predicate Linked(t: Walk) {
    TablesAgree(t.db.rows, t.byFile, t.byHash) && Covered(t)
  }

  lemma RewriteAgrees(rows: Rows, byFile: map<Coords, Hash>, byHash: map<Hash, Stored>, h: Hash, r: Row)
    requires TablesAgree(rows, byFile, byHash)
    requires h in rows && r.coords == rows[h].coords && r.alive == rows[h].alive
    ensures TablesAgree(rows[h := r], byFile, byHash)
  {
    assert rows[h := r].Keys == rows.Keys;
  }

  lemma InsertAgrees(rows: Rows, byFile: map<Coords, Hash>, byHash: map<Hash, Stored>, h: Hash, f: MailFile)
    requires TablesAgree(rows, byFile, byHash)
    requires h !in rows && f.coords !in byFile
    ensures TablesAgree(rows[h := NewRow(f)], byFile[f.coords := h], byHash[h := Stored(f.coords, false)])
  {
  }

  lemma KnownLinked(t: Walk, f: MailFile, h: Hash)
    requires Linked(t) && f.coords in t.byFile && h == t.byFile[f.coords]
    ensures Linked(VisitKnown(t, f, h))
  {
    var t' := VisitKnown(t, f, h);
    assert TablesAgree(t'.db.rows, t'.byFile, t'.byHash) by {
      RewriteAgrees(t.db.rows, t.byFile, t.byHash, h, t.db.rows[h].(recips := f.content.recips, pending := false));
    }
    assert Covered(t');
  }

  lemma NewLinked(t: Walk, f: MailFile, h: Hash)
    requires Linked(t) && f.coords !in t.byFile && h !in t.byHash
    ensures Linked(VisitNew(t, f, h))
  {
    InsertAgrees(t.db.rows, t.byFile, t.byHash, h, f);
  }

  lemma VisitLinked(t: Walk, f: MailFile)
    requires Linked(t)
    ensures Linked(Visit(t, f)) && t.db.rows.Keys <= Visit(t, f).db.rows.Keys
    ensures Visit(t, f).seenFiles == t.seenFiles + {f.coords}
  {
    if f.coords in t.byFile {
      KnownLinked(t, f, t.byFile[f.coords]);
    } else if ParsedHash(f.content).Some? && ParsedHash(f.content).value !in t.byHash {
      NewLinked(t, f, ParsedHash(f.content).value);
    }
  }

  // ---------------------------------------------------------------------------
  // The accumulators on a disk the index is grounded in
  // ---------------------------------------------------------------------------

  ghost predicate RowsWalked(rows: Rows, world: World, rows0: Rows, seen: seq<MailFile>) {
    && rows.Keys == rows0.Keys + Scan(seen)
    && forall h :: h in rows ==> rows[h] == Base(world, rows0, seen, h)
  }

  ghost function CoordsOf(f: Option<MailFile>): Option<Coords> {
    if f.Some? then Some(f.value.coords) else None
  }

  function Lookup<V>(m: map<Hash, V>, h: Hash): Option<V> {
    if h in m then Some(m[h]) else None
  }

  function Union(m: map<Hash, set<Addr>>, h: Hash): set<Addr> {
    if h in m then m[h] else {}
  }

  /** Relocation targets: the first copy outside the row's own coordinates. */
  ghost predicate RelocsWalked(relocations: map<Hash, Coords>, rows: Rows, seen: seq<MailFile>) {
    forall h :: h in rows ==> Lookup(relocations, h) == CoordsOf(FirstCopy(seen, h, {rows[h].coords}))
  }

  /** Duplicate Bcc: all of it, from every copy outside the row's own coordinates. */
  ghost predicate DupsWalked(dupBcc: map<Hash, set<Addr>>, rows: Rows, seen: seq<MailFile>) {
    forall h :: h in rows ==> Union(dupBcc, h) == BccOf(seen, h, {rows[h].coords})
  }

  ghost predicate Walked(t: Walk, world: World, rows0: Rows, seen: seq<MailFile>) {
    && t.seenHashes == Scan(seen)
    && RowsWalked(t.db.rows, world, rows0, seen)
    && RelocsWalked(t.relocations, t.db.rows, seen)
    && DupsWalked(t.dupBcc, t.db.rows, seen)
    && t.relocations.Keys + t.dupBcc.Keys <= t.db.rows.Keys
    && t.recipientsPending == PendingOf(t.db.rows)
    && t.db.touched == |Rereads(rows0, seen)| + |Scan(seen) - rows0.Keys|
  }

  ghost function PendingOf(rows: Rows): set<Hash> {
    set h | h in rows && rows[h].pending
  }

  lemma BaseExtends(world: World, rows0: Rows, seen: seq<MailFile>, f: MailFile, h: Hash)
    requires h in rows0 || h in Scan(seen)
    requires h in rows0 && rows0[h].pending ==> rows0[h].coords != f.coords
    ensures h in Scan(seen) ==> h in Scan(seen + [f])
    ensures Base(world, rows0, seen + [f], h) == Base(world, rows0, seen, h)
  {
    Extend(seen, f);
    ScanFinds(seen, h);
    ExtendCopies(seen, f, h, {});
  }

  /** A row pointing at a walked file holds that file's hash. */
  lemma PointsAtCopy(world: World, w: seq<MailFile>, rows0: Rows, seen: seq<MailFile>, h: Hash, f: MailFile)
    requires Grounded(world, w, rows0) && f in w && (forall g :: g in seen ==> g in w)
    requires h in rows0 || h in Scan(seen)
    requires Base(world, rows0, seen, h).coords == f.coords
    ensures IsCopy(f, h)
  {
    NamesMean(w, f.coords);
    if h !in rows0 {
      ScanFinds(seen, h);
      FirstCopyMeans(seen, h, {});
    }
  }

  /** On a grounded disk a known file is a copy of exactly the one row that names it. */
  lemma KnownIsCopy(world: World, w: seq<MailFile>, rows0: Rows, seen: seq<MailFile>, rows: Rows, f: MailFile, h: Hash)
    requires Grounded(world, w, rows0) && f in w && (forall g :: g in seen ==> g in w)
    requires RowsWalked(rows, world, rows0, seen) && h in rows && rows[h].coords == f.coords
    ensures IsCopy(f, h) && forall g :: g in rows && g != h ==> rows[g].coords != f.coords
  {
    PointsAtCopy(world, w, rows0, seen, h, f);
    forall g | g in rows && rows[g].coords == f.coords ensures g == h {
      PointsAtCopy(world, w, rows0, seen, g, f);
    }
  }

  lemma KnownRows(world: World, rows0: Rows, seen: seq<MailFile>, rows: Rows, f: MailFile, h: Hash)
    requires RowsWalked(rows, world, rows0, seen) && h in rows && rows[h].coords == f.coords
    requires IsCopy(f, h) && f.content == world(f.coords)
    requires forall g :: g in rows && g != h ==> rows[g].coords != f.coords
    ensures RowsWalked(rows[h := RereadRow(rows[h], f.content)], world, rows0, seen + [f])
  {
    Extend(seen, f);
    forall g | g in rows && g != h ensures rows[g] == Base(world, rows0, seen + [f], g) {
      BaseExtends(world, rows0, seen, f, g);
    }
    ScanFinds(seen, h);
    ExtendCopies(seen, f, h, {});
  }

  /** A file that is no new copy of any row changes neither relocations nor duplicate Bcc. */
  lemma KnownCopies(relocations: map<Hash, Coords>, dupBcc: map<Hash, set<Addr>>, rows: Rows, seen: seq<MailFile>, f: MailFile, h: Hash, r: Row)
    requires RelocsWalked(relocations, rows, seen) && DupsWalked(dupBcc, rows, seen)
    requires h in rows && IsCopy(f, h) && r.coords == rows[h].coords == f.coords
    ensures RelocsWalked(relocations, rows[h := r], seen + [f]) && DupsWalked(dupBcc, rows[h := r], seen + [f])
  {
    forall g | g in rows {
      ExtendCopies(seen, f, g, {rows[g].coords});
    }
  }

  lemma KnownCounts(rows0: Rows, seen: seq<MailFile>, world: World, rows: Rows, f: MailFile, h: Hash)
    requires RowsWalked(rows, world, rows0, seen) && h in rows && rows[h].coords == f.coords && IsCopy(f, h)
    requires forall g :: g in rows && g != h ==> rows[g].coords != f.coords
    ensures Scan(seen + [f]) == Scan(seen) + {h}
    ensures Scan(seen + [f]) - rows0.Keys == Scan(seen) - rows0.Keys
    ensures |Rereads(rows0, seen + [f])| == |Rereads(rows0, seen)| + if rows[h].pending then 1 else 0
  {
    Extend(seen, f);
    var before, after := Rereads(rows0, seen), Rereads(rows0, seen + [f]);
    forall g | g in rows0 ensures rows[g].coords == rows0[g].coords && (g in after <==> g in before || (g == h && rows[h].pending)) {
      assert rows[g] == Base(world, rows0, seen, g);
    }
    if rows[h].pending {
      assert h in rows0 && h !in before;
      assert after == before + {h};
    } else {
      assert after == before;
    }
  }

  function RereadRow(r: Row, c: Content): Row {
    if r.pending then r.(recips := c.recips, pending := false) else r
  }

  lemma KnownWrite(t: Walk, f: MailFile, h: Hash)
    requires h in t.db.rows && f.content.readable && t.recipientsPending == PendingOf(t.db.rows)
    ensures var t' := VisitKnown(t, f, h);
            && t'.db.rows == t.db.rows[h := RereadRow(t.db.rows[h], f.content)]
            && t'.db.touched == t.db.touched + (if t.db.rows[h].pending then 1 else 0)
            && t'.recipientsPending == PendingOf(t'.db.rows)
  {
    assert t.db.rows == t.db.rows[h := t.db.rows[h]];
  }

  lemma KnownWalked(world: World, rows0: Rows, seen: seq<MailFile>, t: Walk, f: MailFile, h: Hash)
    requires Walked(t, world, rows0, seen) && h in t.db.rows && t.db.rows[h].coords == f.coords
    requires IsCopy(f, h) && f.content == world(f.coords)
    requires forall g :: g in t.db.rows && g != h ==> t.db.rows[g].coords != f.coords
    ensures Walked(VisitKnown(t, f, h), world, rows0, seen + [f])
  {
    KnownWrite(t, f, h);
    KnownRows(world, rows0, seen, t.db.rows, f, h);
    KnownCopies(t.relocations, t.dupBcc, t.db.rows, seen, f, h, RereadRow(t.db.rows[h], f.content));
    KnownCounts(rows0, seen, world, t.db.rows, f, h);
  }

  /** A file under a name no row points at leaves every row as it was. */
  lemma StrangerRows(world: World, rows0: Rows, seen: seq<MailFile>, rows: Rows, f: MailFile)
    requires RowsWalked(rows, world, rows0, seen) && forall h :: h in rows ==> rows[h].coords != f.coords
    ensures forall h :: h in rows ==> (h in rows0 || h in Scan(seen + [f])) && rows[h] == Base(world, rows0, seen + [f], h)
    ensures Rereads(rows0, seen + [f]) == Rereads(rows0, seen)
  {
    Extend(seen, f);
    forall h | h in rows ensures rows[h] == Base(world, rows0, seen + [f], h) {
      assert h in rows0 ==> rows[h].coords == rows0[h].coords;
      BaseExtends(world, rows0, seen, f, h);
    }
    forall h | h in rows0 ensures rows0[h].coords != f.coords {
      assert rows[h].coords == rows0[h].coords;
    }
  }

  lemma StrangerStays(world: World, rows0: Rows, seen: seq<MailFile>, rows: Rows, f: MailFile)
    requires RowsWalked(rows, world, rows0, seen) && forall h :: h in rows ==> rows[h].coords != f.coords
    requires ParsedHash(f.content).Some? ==> ParsedHash(f.content).value in rows
    ensures RowsWalked(rows, world, rows0, seen + [f])
    ensures Rereads(rows0, seen + [f]) == Rereads(rows0, seen)
    ensures Scan(seen + [f]) - rows0.Keys == Scan(seen) - rows0.Keys
  {
    Extend(seen, f);
    StrangerRows(world, rows0, seen, rows, f);
  }

  lemma UnparsedTables(relocations: map<Hash, Coords>, dupBcc: map<Hash, set<Addr>>, rows: Rows, seen: seq<MailFile>, f: MailFile)
    requires RelocsWalked(relocations, rows, seen) && DupsWalked(dupBcc, rows, seen)
    requires ParsedHash(f.content).None?
    ensures RelocsWalked(relocations, rows, seen + [f]) && DupsWalked(dupBcc, rows, seen + [f])
    ensures Scan(seen + [f]) == Scan(seen)
  {
    Extend(seen, f);
    forall g | g in rows {
      ExtendCopies(seen, f, g, {rows[g].coords});
    }
  }

  lemma CopyTables(t: Walk, seen: seq<MailFile>, f: MailFile, h: Hash)
    requires RelocsWalked(t.relocations, t.db.rows, seen) && DupsWalked(t.dupBcc, t.db.rows, seen)
    requires IsCopy(f, h) && h in t.db.rows && t.db.rows[h].coords != f.coords
    ensures RelocsWalked(VisitCopy(t, f, h).relocations, t.db.rows, seen + [f])
    ensures DupsWalked(VisitCopy(t, f, h).dupBcc, t.db.rows, seen + [f])
    ensures Scan(seen + [f]) == Scan(seen) + {h}
  {
    Extend(seen, f);
    forall g | g in t.db.rows {
      ExtendCopies(seen, f, g, {t.db.rows[g].coords});
    }
  }

  lemma NewRows(world: World, rows0: Rows, seen: seq<MailFile>, rows: Rows, f: MailFile, h: Hash)
    requires RowsWalked(rows, world, rows0, seen) && IsCopy(f, h) && h !in rows
    requires forall g :: g in rows ==> rows[g].coords != f.coords
    ensures RowsWalked(rows[h := NewRow(f)], world, rows0, seen + [f])
    ensures Scan(seen + [f]) == Scan(seen) + {h} && Scan(seen + [f]) - rows0.Keys == Scan(seen) - rows0.Keys + {h}
    ensures h !in Scan(seen) && Rereads(rows0, seen + [f]) == Rereads(rows0, seen)
  {
    Extend(seen, f);
    StrangerRows(world, rows0, seen, rows, f);
    ScanFinds(seen, h);
    ExtendCopies(seen, f, h, {});
  }

  lemma NewPending(rows: Rows, f: MailFile, h: Hash)
    requires h !in rows
    ensures PendingOf(rows[h := NewRow(f)]) == PendingOf(rows)
  {
  }

  lemma {:induction false} NothingScanned(w: seq<MailFile>, h: Hash, except: set<Coords>)
    requires h !in Scan(w)
    ensures FirstCopy(w, h, except) == None && BccOf(w, h, except) == {}
  {
    if w != [] {
      NothingScanned(w[..|w| - 1], h, except);
    }
  }

  lemma NewTables(relocations: map<Hash, Coords>, dupBcc: map<Hash, set<Addr>>, rows: Rows, seen: seq<MailFile>, f: MailFile, h: Hash)
    requires RelocsWalked(relocations, rows, seen) && DupsWalked(dupBcc, rows, seen)
    requires relocations.Keys + dupBcc.Keys <= rows.Keys
    requires IsCopy(f, h) && h !in rows && h !in Scan(seen)
    ensures RelocsWalked(relocations, rows[h := NewRow(f)], seen + [f])
    ensures DupsWalked(dupBcc, rows[h := NewRow(f)], seen + [f])
  {
    NothingScanned(seen, h, {f.coords});
    ExtendCopies(seen, f, h, {f.coords});
    assert h !in relocations && h !in dupBcc;
    forall g | g in rows {
      ExtendCopies(seen, f, g, {rows[g].coords});
    }
  }

  lemma UnparsedWalked(world: World, rows0: Rows, seen: seq<MailFile>, t: Walk, f: MailFile)
    requires Walked(t, world, rows0, seen) && ParsedHash(f.content).None?
    requires forall g :: g in t.db.rows ==> t.db.rows[g].coords != f.coords
    ensures Walked(t.(seenFiles := t.seenFiles + {f.coords}), world, rows0, seen + [f])
  {
    StrangerStays(world, rows0, seen, t.db.rows, f);
    UnparsedTables(t.relocations, t.dupBcc, t.db.rows, seen, f);
  }

  lemma CopyWalked(world: World, rows0: Rows, seen: seq<MailFile>, t: Walk, f: MailFile, h: Hash)
    requires Walked(t, world, rows0, seen) && IsCopy(f, h) && h in t.db.rows
    requires forall g :: g in t.db.rows ==> t.db.rows[g].coords != f.coords
    ensures Walked(VisitCopy(t, f, h), world, rows0, seen + [f])
  {
    StrangerStays(world, rows0, seen, t.db.rows, f);
    CopyTables(t, seen, f, h);
  }

  lemma NewWalked(world: World, rows0: Rows, seen: seq<MailFile>, t: Walk, f: MailFile, h: Hash)
    requires Walked(t, world, rows0, seen) && IsCopy(f, h) && h !in t.db.rows
    requires forall g :: g in t.db.rows ==> t.db.rows[g].coords != f.coords
    ensures Walked(VisitNew(t, f, h), world, rows0, seen + [f])
  {
    NewRows(world, rows0, seen, t.db.rows, f, h);
    NewPending(t.db.rows, f, h);
    NewTables(t.relocations, t.dupBcc, t.db.rows, seen, f, h);
  }

  /** A file under a name no row points at. */
  lemma StrangerWalked(world: World, rows0: Rows, seen: seq<MailFile>, t: Walk, f: MailFile)
    requires Walked(t, world, rows0, seen) && t.byHash.Keys == t.db.rows.Keys && f.coords !in t.byFile
    requires forall g :: g in t.db.rows ==> t.db.rows[g].coords != f.coords
    ensures Walked(Visit(t, f), world, rows0, seen + [f])
  {
    match ParsedHash(f.content) {
      case None => UnparsedWalked(world, rows0, seen, t, f);
      case Some(h) =>
        if h in t.byHash {
          CopyWalked(world, rows0, seen, t, f, h);
        } else {
          NewWalked(world, rows0, seen, t, f, h);
        }
    }
  }

  lemma VisitWalked(world: World, w: seq<MailFile>, rows0: Rows, seen: seq<MailFile>, t: Walk, f: MailFile)
    requires Grounded(world, w, rows0) && f in w && (forall g :: g in seen ==> g in w)
    requires TablesAgree(t.db.rows, t.byFile, t.byHash) && Walked(t, world, rows0, seen)
    ensures Walked(Visit(t, f), world, rows0, seen + [f])
  {
    if f.coords in t.byFile {
      var h := t.byFile[f.coords];
      KnownIsCopy(world, w, rows0, seen, t.db.rows, f, h);
      KnownWalked(world, rows0, seen, t, f, h);
    } else {
      StrangerWalked(world, rows0, seen, t, f);
    }
  }

  // ---------------------------------------------------------------------------
  // Every state written to the table is a Midway state
  // ---------------------------------------------------------------------------

  lemma BaseIsHeaded(world: World, w: seq<MailFile>, rows0: Rows, seen: seq<MailFile>, h: Hash)
    requires Grounded(world, w, rows0) && (forall g :: g in seen ==> g in w)
    requires h in rows0 || h in Scan(seen)
    ensures h in rows0 && rows0[h].pending && rows0[h].coords in Names(seen) ==> Headed(world, h, Base(world, rows0, seen, h))
    ensures h !in rows0 ==> Headed(world, h, Base(world, rows0, seen, h))
  {
    if h in rows0 {
      NamesMean(seen, rows0[h].coords);
      NamesMean(w, rows0[h].coords);
    } else {
      ScanFinds(seen, h);
      FirstCopyMeans(seen, h, {});
      var f := FirstCopy(seen, h, {}).value;
      assert f.content == world(f.coords);
    }
  }

  lemma BaseIsMid(world: World, w: seq<MailFile>, rows0: Rows, seen: seq<MailFile>, h: Hash)
    requires Grounded(world, w, rows0) && (forall g :: g in seen ==> g in w)
    requires h in rows0 || h in Scan(seen)
    ensures MidRow(world, rows0, w, h, Base(world, rows0, seen, h))
  {
    BaseIsHeaded(world, w, rows0, seen, h);
    if h !in rows0 {
      ScanFinds(seen, h);
      FirstCopyMeans(seen, h, {});
    }
  }

  lemma WalkedIsMid(world: World, w: seq<MailFile>, rows0: Rows, seen: seq<MailFile>, rows: Rows)
    requires Grounded(world, w, rows0) && (forall g :: g in seen ==> g in w)
    requires RowsWalked(rows, world, rows0, seen)
    ensures Midway(world, rows0, w, rows)
  {
    forall h | h in rows ensures (h in rows0 || h in Scan(w)) && MidRow(world, rows0, w, h, rows[h]) {
      ScanMeans(seen, h);
      ScanMeans(w, h);
      BaseIsMid(world, w, rows0, seen, h);
    }
  }

  lemma MergedIsMid(world: World, w: seq<MailFile>, rows0: Rows, h: Hash, r: Row)
    requires Grounded(world, w, rows0) && (h in rows0 || h in Scan(w))
    requires Merged(w, h, Base(world, rows0, w, h), r)
    ensures MidRow(world, rows0, w, h, r)
  {
    BaseIsMid(world, w, rows0, w, h);
  }

  /** The merge of the duplicates' Bcc runs before relocation, so the new pointer's Bcc is already there. */
  lemma SettledIsMid(world: World, w: seq<MailFile>, rows0: Rows, h: Hash, r: Row)
    requires Grounded(world, w, rows0) && (h in rows0 || h in Scan(w))
    requires Settled(w, h, Base(world, rows0, w, h), r)
    ensures MidRow(world, rows0, w, h, r)
  {
    var base := Base(world, rows0, w, h);
    MergedIsMid(world, w, rows0, h, r.(coords := base.coords, alive := base.alive));
    if r.coords != base.coords {
      ScanFinds(w, h);
      FirstCopyMeans(w, h, {});
      var f := FirstCopy(w, h, {}).value;
      assert f.coords in Names(w) by { NamesMean(w, f.coords); }
      forall a | a in Elems(f.content.recips.bcc) ensures a in Elems(r.recips.bcc) {
        BccMeans(w, h, {base.coords}, a);
      }
    }
  }

  // ---------------------------------------------------------------------------
  // The three passes after the walk
  // ---------------------------------------------------------------------------

  lemma ElemsConcat(a: seq<Addr>, b: seq<Addr>)
    ensures Elems(a + b) == Elems(a) + Elems(b)
  {
    assert forall x :: x in a + b <==> x in a || x in b;
  }

  ghost function Pick<T>(s: set<T>): (t: T)
    requires s != {}
    ensures t in s
  {
    var t :| t in s; t
  }

  ghost predicate IsLeast(s: set<Addr>, m: Addr) {
    m in s && forall x :: x in s ==> m <= x
  }

  lemma {:induction false} LeastExists(s: set<Addr>)
    requires s != {}
    ensures exists m :: IsLeast(s, m)
    decreases |s|
  {
    var a := Pick(s);
    var rest := s - {a};
    if rest == {} {
      assert s == {a};
      assert IsLeast(s, a);
    } else {
      LeastExists(rest);
      var m :| IsLeast(rest, m);
      assert s == rest + {a};
      assert IsLeast(s, if a < m then a else m);
    }
  }

  function Least(s: set<Addr>): (m: Addr)
    requires s != {}
    ensures IsLeast(s, m)
  {
    LeastExists(s);
    assert exists m :: m in s && forall x :: x in s ==> m <= x by {
      var m :| IsLeast(s, m);
    }
    var m :| m in s && forall x :: x in s ==> m <= x;
    m
  }

  lemma LeastFirst(s: set<Addr>, m: Addr, rest: seq<Addr>)
    requires IsLeast(s, m)
    requires Elems(rest) == s - {m} && |rest| == |s - {m}| && Increasing(rest)
    ensures Elems([m] + rest) == s && |[m] + rest| == |s| && Increasing([m] + rest)
  {
    ElemsConcat([m], rest);
    assert Elems([m]) == {m};
    forall i | 0 <= i < |rest| ensures m < rest[i] {
      assert rest[i] in Elems(rest);
    }
  }

  /** Python's `sorted` of a set. */
  function Sorted(s: set<Addr>): (l: seq<Addr>)
    ensures Elems(l) == s && |l| == |s| && Increasing(l)
    decreases |s|
  {
    if s == {} then []
    else
      var m := Least(s);
      LeastFirst(s, m, Sorted(s - {m}));
      [m] + Sorted(s - {m})
  }

  function WithMissing(row: Row, found: set<Addr>): Row {
    row.(recips := row.recips.(bcc := row.recips.bcc + Sorted(found - Elems(row.recips.bcc))))
  }

  lemma NothingMissing(row: Row, found: set<Addr>)
    requires found - Elems(row.recips.bcc) == {}
    ensures WithMissing(row, found) == row
  {
  }

  lemma MergeRow(w: seq<MailFile>, h: Hash, base: Row)
    ensures Merged(w, h, base, WithMissing(base, BccOf(w, h, {base.coords})))
  {
    var missing := Sorted(BccOf(w, h, {base.coords}) - Elems(base.recips.bcc));
    ElemsConcat(base.recips.bcc, missing);
    assert (base.recips.bcc + missing)[|base.recips.bcc|..] == missing;
  }

  lemma SettleRow(w: seq<MailFile>, h: Hash, base: Row, merged: Row)
    requires Merged(w, h, base, merged)
    ensures Settled(w, h, base, merged.(coords := PlacedAt(w, h, base.coords), alive := h in Scan(w)))
  {
    var r := merged.(coords := PlacedAt(w, h, base.coords), alive := h in Scan(w));
    assert r.(coords := base.coords, alive := base.alive) == merged;
  }

  /** A pass takes `db0.rows` to `target` one row at a time; `todo` is what it has not looked at yet. */
  ghost predicate Underway(db0: Table, target: Rows, writes: set<Hash>, todo: set<Hash>, db: Table) {
    && db.rows.Keys == db0.rows.Keys == target.Keys
    && (forall h :: h in db.rows ==> db.rows[h] == if h in todo then db0.rows[h] else target[h])
    && db.touched == db0.touched + |writes - todo|
    && db0.log <= db.log && Recorded(db0.rows, |db0.log|, db0.touched, db)
    && forall i :: |db0.log| <= i < |db.log| ==> Between(db0.rows, target, db.log[i])
  }

  /** Since the log was `from` long and `touched` writes old, every write has been logged, the last one last. */
  ghost predicate Recorded(rows0: Rows, from: nat, touched: nat, db: Table) {
    && |db.log| - from == db.touched - touched >= 0
    && db.rows == if |db.log| == from then rows0 else db.log[|db.log| - 1]
  }

  lemma RecordedOn(rows0: Rows, from: nat, touched: nat, rows1: Rows, from1: nat, touched1: nat, db: Table)
    requires Recorded(rows1, from1, touched1, db) && from <= from1
    requires from1 - from == touched1 - touched >= 0
    requires from1 == from ==> rows1 == rows0
    requires |db.log| == from1 > from ==> rows1 == db.log[from1 - 1]
    ensures Recorded(rows0, from, touched, db)
  {
  }

  ghost predicate Between(a: Rows, b: Rows, s: Rows) {
    && s.Keys == a.Keys == b.Keys
    && forall h :: h in s ==> s[h] == a[h] || s[h] == b[h]
  }

  lemma CountDown(m: set<Hash>, todo: set<Hash>, h: Hash)
    requires h in todo
    ensures |m - (todo - {h})| == |m - todo| + if h in m then 1 else 0
  {
    if h in m {
      assert m - (todo - {h}) == m - todo + {h};
    } else {
      assert m - (todo - {h}) == m - todo;
    }
  }

  lemma PassStart(db: Table, target: Rows, writes: set<Hash>, todo: set<Hash>)
    requires target.Keys == db.rows.Keys && writes <= todo
    requires forall h :: h in target && h !in todo ==> target[h] == db.rows[h]
    ensures Underway(db, target, writes, todo, db)
  {
    assert writes - todo == {};
  }

  lemma PassStep(db0: Table, target: Rows, writes: set<Hash>, todo: set<Hash>, db: Table, h: Hash)
    requires Underway(db0, target, writes, todo, db) && h in todo && h in db.rows
    requires h !in writes ==> target[h] == db0.rows[h]
    ensures Underway(db0, target, writes, todo - {h}, if h in writes then db.Write(h, target[h]) else db)
  {
    CountDown(writes, todo, h);
  }

  // ---------------------------------------------------------------------------
  // What each pass makes of the rows
  // ---------------------------------------------------------------------------

  ghost function MergeTarget(t: Walk): Rows {
    map h | h in t.db.rows :: WithMissing(t.db.rows[h], Union(t.dupBcc, h))
  }

  ghost function MergeWrites(t: Walk): set<Hash> {
    set h | h in t.dupBcc && h in t.db.rows && t.dupBcc[h] - Elems(t.db.rows[h].recips.bcc) != {}
  }

  predicate MustMove(t: Walk, h: Hash)
    requires h in t.byHash
  {
    t.byHash[h].coords !in t.seenFiles || t.byHash[h].isDeleted
  }

  function MovedRow(t: Walk, h: Hash, row: Row): Row
    requires h in t.byHash
  {
    if t.byHash[h].coords !in t.seenFiles && h in t.relocations
    then row.(coords := t.relocations[h], alive := true)
    else row.(alive := true)
  }

  ghost function MoveWrites(t: Walk): set<Hash> {
    set h | h in t.seenHashes && h in t.byHash && MustMove(t, h)
  }

  ghost function AfterMove(t: Walk, h: Hash, row: Row): Row
    requires h in t.byHash
  {
    if h in t.seenHashes && MustMove(t, h) then MovedRow(t, h, row) else row
  }

  ghost function MoveTarget(t: Walk, rows: Rows): Rows
    requires rows.Keys == t.byHash.Keys
  {
    map h | h in rows :: AfterMove(t, h, rows[h])
  }

  ghost function CloseWrites(t: Walk): set<Hash> {
    set h | h in t.byHash && !t.byHash[h].isDeleted && h !in t.seenHashes
  }

  ghost function AfterClose(t: Walk, h: Hash, row: Row): Row
    requires h in t.byHash
  {
    if !t.byHash[h].isDeleted && h !in t.seenHashes then row.(alive := false) else row
  }

  ghost function CloseTarget(t: Walk, rows: Rows): Rows
    requires rows.Keys == t.byHash.Keys
  {
    map h | h in rows :: AfterClose(t, h, rows[h])
  }

  lemma NothingSeen(rows0: Rows, world: World)
    ensures RowsWalked(rows0, world, rows0, [])
    ensures RelocsWalked(map[], rows0, []) && DupsWalked(map[], rows0, [])
    ensures |Rereads(rows0, [])| + |Scan([]) - rows0.Keys| == 0
  {
    assert forall h :: h in rows0 ==> h !in Rereads(rows0, []);
  }

  lemma NothingWalked(t: Walk, world: World, w: seq<MailFile>, rows0: Rows)
    requires t.db.rows == rows0 && t.db.touched == 0
    requires TablesAgree(rows0, t.byFile, t.byHash) && t.recipientsPending == PendingOf(rows0)
    requires t.seenHashes == {} && t.seenFiles == {} && t.relocations == map[] && t.dupBcc == map[]
    ensures InStep(t, world, rows0, w, [], |t.db.log|)
  {
    assert Walked(t, world, rows0, []) by { NothingSeen(rows0, world); }
  }

  /** The bulk read of the table into the two lookup tables. */
  method LoadTables(rows: Rows) returns (byFile: map<Coords, Hash>, byHash: map<Hash, Stored>, pending: set<Hash>)
    ensures TablesAgree(rows, byFile, byHash)
    ensures pending == PendingOf(rows)
  {
    byFile, byHash, pending := map[], map[], {};
    var todo := rows.Keys;
    while todo != {}
      invariant todo <= rows.Keys && byHash.Keys == rows.Keys - todo
      invariant forall h :: h in byHash ==> byHash[h] == Stored(rows[h].coords, !rows[h].alive) && rows[h].coords in byFile
      invariant forall c :: c in byFile ==> byFile[c] in rows && rows[byFile[c]].coords == c
      invariant pending == set h | h in rows && h !in todo && rows[h].pending
      decreases todo
    {
      var h := Choose(todo);
      byFile := byFile[rows[h].coords := h];
      byHash := byHash[h := Stored(rows[h].coords, !rows[h].alive)];
      if rows[h].pending {
        pending := pending + {h};
      }
      todo := todo - {h};
    }
  }

  method StartWalk(db: Table, walk: seq<MailFile>, ghost world: World) returns (t: Walk)
    requires db.touched == 0
    ensures InStep(t, world, db.rows, walk, walk[..0], |db.log|)
  {
    var byFile, byHash, pending := LoadTables(db.rows);
    t := Walk(db, byFile, byHash, pending, {}, {}, map[], map[]);
    NothingWalked(t, world, walk, db.rows);
    assert walk[..0] == [];
  }

  /** The walk proper: every file once, in the order `os.walk` yields them. */
  method WalkFiles(db: Table, walk: seq<MailFile>, ghost world: World) returns (t: Walk)
    requires db.touched == 0
    ensures InStep(t, world, db.rows, walk, walk, |db.log|)
  {
    t := StartWalk(db, walk, world);
    var i := 0;
    while i < |walk|
      invariant 0 <= i <= |walk|
      invariant InStep(t, world, db.rows, walk, walk[..i], |db.log|)
    {
      VisitNext(t, world, db.rows, walk, i, |db.log|);
      t := Visit(t, walk[i]);
      i := i + 1;
    }
    assert walk[..i] == walk;
  }

  lemma MergeOne(t: Walk, h: Hash)
    requires h in t.db.rows
    ensures h in MergeWrites(t) ==> MergeTarget(t)[h] == WithMissing(t.db.rows[h], t.dupBcc[h])
    ensures h !in MergeWrites(t) ==> MergeTarget(t)[h] == t.db.rows[h]
  {
    if h !in MergeWrites(t) {
      NothingMissing(t.db.rows[h], Union(t.dupBcc, h));
    }
  }

  lemma MergeStart(t: Walk)
    requires t.dupBcc.Keys <= t.db.rows.Keys
    ensures Underway(t.db, MergeTarget(t), MergeWrites(t), t.dupBcc.Keys, t.db)
  {
    forall h | h in t.db.rows {
      MergeOne(t, h);
    }
    PassStart(t.db, MergeTarget(t), MergeWrites(t), t.dupBcc.Keys);
  }

  lemma MergeStep(t: Walk, todo: set<Hash>, db: Table, h: Hash)
    requires Underway(t.db, MergeTarget(t), MergeWrites(t), todo, db)
    requires h in todo && h in t.dupBcc && h in db.rows
    ensures Underway(t.db, MergeTarget(t), MergeWrites(t), todo - {h},
                     if t.dupBcc[h] - Elems(db.rows[h].recips.bcc) != {} then db.Write(h, WithMissing(db.rows[h], t.dupBcc[h])) else db)
  {
    MergeOne(t, h);
    PassStep(t.db, MergeTarget(t), MergeWrites(t), todo, db, h);
  }

  /** First pass: the Bcc of duplicate copies, a write only where an address is missing. */
  method MergeDuplicates(t: Walk) returns (db: Table)
    requires t.dupBcc.Keys <= t.db.rows.Keys
    ensures Underway(t.db, MergeTarget(t), MergeWrites(t), {}, db)
  {
    db := t.db;
    var todo := t.dupBcc.Keys;
    MergeStart(t);
    while todo != {}
      invariant todo <= t.dupBcc.Keys && Underway(t.db, MergeTarget(t), MergeWrites(t), todo, db)
      decreases todo
    {
      var h := Choose(todo);
      MergeStep(t, todo, db, h);
      if t.dupBcc[h] - Elems(db.rows[h].recips.bcc) != {} {
        db := db.Write(h, WithMissing(db.rows[h], t.dupBcc[h]));
      }
      todo := todo - {h};
    }
  }

  lemma MoveStart(t: Walk, db: Table)
    requires t.seenHashes <= t.byHash.Keys == db.rows.Keys
    ensures Underway(db, MoveTarget(t, db.rows), MoveWrites(t), t.seenHashes, db)
  {
    PassStart(db, MoveTarget(t, db.rows), MoveWrites(t), t.seenHashes);
  }

  lemma MoveStep(t: Walk, db0: Table, todo: set<Hash>, db: Table, h: Hash)
    requires t.seenHashes <= t.byHash.Keys == db0.rows.Keys && todo <= t.seenHashes && h in todo
    requires Underway(db0, MoveTarget(t, db0.rows), MoveWrites(t), todo, db)
    ensures Underway(db0, MoveTarget(t, db0.rows), MoveWrites(t), todo - {h},
                     if MustMove(t, h) then db.Write(h, MovedRow(t, h, db.rows[h])) else db)
  {
    PassStep(db0, MoveTarget(t, db0.rows), MoveWrites(t), todo, db, h);
  }

  /** Second pass: stale pointers move to the first other copy, and rows seen again come back to life. */
  method Relocate(t: Walk, db0: Table) returns (db: Table)
    requires Linked(t) && db0.rows.Keys == t.byHash.Keys
    ensures Underway(db0, MoveTarget(t, db0.rows), MoveWrites(t), {}, db)
  {
    db := db0;
    var todo := t.seenHashes;
    MoveStart(t, db0);
    while todo != {}
      invariant todo <= t.seenHashes && Underway(db0, MoveTarget(t, db0.rows), MoveWrites(t), todo, db)
      decreases todo
    {
      var h := Choose(todo);
      MoveStep(t, db0, todo, db, h);
      db := RelocateOne(t, db, h);
      todo := todo - {h};
    }
  }

  method RelocateOne(t: Walk, db0: Table, h: Hash) returns (db: Table)
    requires Linked(t) && h in t.seenHashes && h in db0.rows
    ensures db == if MustMove(t, h) then db0.Write(h, MovedRow(t, h, db0.rows[h])) else db0
  {
    var stored := t.byHash[h];
    var stale := stored.coords !in t.seenFiles;
    db := db0;
    if stale && h !in t.relocations {
      // Every seen hash is covered: the skip the source writes defensively is never taken.
      assert false;
    } else if stale || stored.isDeleted {
      db := db.Write(h, MovedRow(t, h, db.rows[h]));
    }
  }

  /** Third pass: alive rows whose hash was not seen anywhere are marked deleted. */
  method SoftDelete(t: Walk, db0: Table) returns (db: Table)
    requires db0.rows.Keys == t.byHash.Keys
    ensures Underway(db0, CloseTarget(t, db0.rows), CloseWrites(t), {}, db)
  {
    db := db0;
    var todo := t.byHash.Keys;
    PassStart(db, CloseTarget(t, db0.rows), CloseWrites(t), todo);
    while todo != {}
      invariant todo <= t.byHash.Keys && Underway(db0, CloseTarget(t, db0.rows), CloseWrites(t), todo, db)
      decreases todo
    {
      var h := Choose(todo);
      PassStep(db0, CloseTarget(t, db0.rows), CloseWrites(t), todo, db, h);
      if !t.byHash[h].isDeleted && h !in t.seenHashes {
        db := db.Write(h, db.rows[h].(alive := false));
      }
      todo := todo - {h};
    }
  }

  ghost predicate Logged(db: Table, world: World, rows0: Rows, w: seq<MailFile>, from: nat) {
    from <= |db.log| && forall i :: from <= i < |db.log| ==> Midway(world, rows0, w, db.log[i])
  }

  /** What the walk keeps: the links always, the exact accumulators on a disk the index is grounded in. */
  ghost predicate InStep(t: Walk, world: World, rows0: Rows, w: seq<MailFile>, seen: seq<MailFile>, from: nat) {
    && Linked(t) && t.seenFiles == Names(seen) && rows0.Keys <= t.db.rows.Keys && Recorded(rows0, from, 0, t.db)
    && (Grounded(world, w, rows0) ==> Walked(t, world, rows0, seen) && Logged(t.db, world, rows0, w, from))
  }

  lemma VisitWrites(t: Walk, f: MailFile)
    ensures Visit(t, f).db.log == t.db.log || Visit(t, f).db.log == t.db.log + [Visit(t, f).db.rows]
  {
  }

  lemma VisitRecorded(t: Walk, f: MailFile, rows0: Rows, from: nat)
    requires Recorded(rows0, from, 0, t.db)
    ensures Recorded(rows0, from, 0, Visit(t, f).db)
  {
  }

  lemma GrowsLogged(world: World, w: seq<MailFile>, rows0: Rows, seen: seq<MailFile>, db: Table, db': Table, from: nat)
    requires Grounded(world, w, rows0) && (forall g :: g in seen ==> g in w)
    requires Logged(db, world, rows0, w, from) && RowsWalked(db'.rows, world, rows0, seen)
    requires db'.log == db.log || db'.log == db.log + [db'.rows]
    ensures Logged(db', world, rows0, w, from)
  {
    WalkedIsMid(world, w, rows0, seen, db'.rows);
  }

  lemma VisitGrounded(t: Walk, world: World, rows0: Rows, w: seq<MailFile>, seen: seq<MailFile>, f: MailFile, from: nat)
    requires Grounded(world, w, rows0) && f in w && (forall g :: g in seen ==> g in w)
    requires TablesAgree(t.db.rows, t.byFile, t.byHash) && Walked(t, world, rows0, seen) && Logged(t.db, world, rows0, w, from)
    ensures Walked(Visit(t, f), world, rows0, seen + [f]) && Logged(Visit(t, f).db, world, rows0, w, from)
  {
    VisitWalked(world, w, rows0, seen, t, f);
    VisitWrites(t, f);
    GrowsLogged(world, w, rows0, seen + [f], t.db, Visit(t, f).db, from);
  }

  lemma VisitInStep(t: Walk, world: World, rows0: Rows, w: seq<MailFile>, seen: seq<MailFile>, f: MailFile, from: nat)
    requires InStep(t, world, rows0, w, seen, from) && f in w && (forall g :: g in seen ==> g in w)
    ensures InStep(Visit(t, f), world, rows0, w, seen + [f], from)
  {
    VisitLinked(t, f);
    VisitRecorded(t, f, rows0, from);
    Extend(seen, f);
    if Grounded(world, w, rows0) {
      VisitGrounded(t, world, rows0, w, seen, f, from);
    }
  }

  lemma VisitNext(t: Walk, world: World, rows0: Rows, w: seq<MailFile>, i: nat, from: nat)
    requires i < |w| && InStep(t, world, rows0, w, w[..i], from)
    ensures InStep(Visit(t, w[i]), world, rows0, w, w[..i + 1], from)
  {
    assert w[..i + 1] == w[..i] + [w[i]];
    VisitInStep(t, world, rows0, w, w[..i], w[i], from);
  }

  // ---------------------------------------------------------------------------
  // The three passes together
  // ---------------------------------------------------------------------------

  lemma RowMerged(t: Walk, world: World, rows0: Rows, w: seq<MailFile>, h: Hash)
    requires RowsWalked(t.db.rows, world, rows0, w) && DupsWalked(t.dupBcc, t.db.rows, w) && h in t.db.rows
    ensures Merged(w, h, Base(world, rows0, w, h), MergeTarget(t)[h])
  {
    MergeRow(w, h, Base(world, rows0, w, h));
  }

  /** Stale pointers have their relocation, and it is the first copy the walk met. */
  lemma RelocationTarget(t: Walk, world: World, rows0: Rows, w: seq<MailFile>, h: Hash)
    requires RowsWalked(t.db.rows, world, rows0, w) && RelocsWalked(t.relocations, t.db.rows, w)
    requires TablesAgree(t.db.rows, t.byFile, t.byHash) && t.seenFiles == Names(w) && h in Scan(w) && h in t.db.rows
    ensures var base := Base(world, rows0, w, h);
            && t.byHash[h] == Stored(base.coords, !base.alive)
            && (if base.coords in Names(w) then PlacedAt(w, h, base.coords) == base.coords
                else h in t.relocations && t.relocations[h] == PlacedAt(w, h, base.coords))
            && (h in Moves(rows0, w) <==> base.coords !in Names(w) || !base.alive)
  {
    ScanFinds(w, h);
    var base := Base(world, rows0, w, h);
    if base.coords !in Names(w) {
      NoStoredCopy(w, h, base.coords);
    }
    FirstCopyMeans(w, h, {});
    NamesMean(w, FirstCopy(w, h, {}).value.coords);
  }

  lemma RowMoved(t: Walk, world: World, rows0: Rows, w: seq<MailFile>, h: Hash, m: Row)
    requires RowsWalked(t.db.rows, world, rows0, w) && RelocsWalked(t.relocations, t.db.rows, w)
    requires TablesAgree(t.db.rows, t.byFile, t.byHash) && t.seenFiles == Names(w) && t.seenHashes == Scan(w)
    requires h in t.db.rows && Merged(w, h, Base(world, rows0, w, h), m)
    ensures if h in Scan(w) then Settled(w, h, Base(world, rows0, w, h), AfterMove(t, h, m)) else AfterMove(t, h, m) == m
    ensures h in Moves(rows0, w) <==> h in MoveWrites(t)
  {
    if h in Scan(w) {
      RelocationTarget(t, world, rows0, w, h);
      SettleRow(w, h, Base(world, rows0, w, h), m);
    }
  }

  lemma RowClosed(t: Walk, world: World, rows0: Rows, w: seq<MailFile>, h: Hash, m: Row)
    requires RowsWalked(t.db.rows, world, rows0, w) && TablesAgree(t.db.rows, t.byFile, t.byHash) && t.seenHashes == Scan(w)
    requires h in t.db.rows
    requires if h in Scan(w) then Settled(w, h, Base(world, rows0, w, h), m) else Merged(w, h, Base(world, rows0, w, h), m)
    ensures Settled(w, h, Base(world, rows0, w, h), AfterClose(t, h, m))
    ensures h in Vanished(rows0, w) <==> h in CloseWrites(t)
  {
    if h !in Scan(w) {
      SettleRow(w, h, Base(world, rows0, w, h), m);
    }
  }

  lemma RowMergeWrites(t: Walk, world: World, rows0: Rows, w: seq<MailFile>, h: Hash)
    requires RowsWalked(t.db.rows, world, rows0, w) && DupsWalked(t.dupBcc, t.db.rows, w)
    requires h in t.db.rows
    ensures h in Merges(world, rows0, w) <==> h in MergeWrites(t)
  {
    if h !in Scan(w) {
      NothingScanned(w, h, {t.db.rows[h].coords});
    }
  }

  /** A row at some moment of the passes: as walked, merged or settled. */
  ghost predicate Reached(w: seq<MailFile>, h: Hash, base: Row, r: Row) {
    r == base || Merged(w, h, base, r) || Settled(w, h, base, r)
  }

  ghost predicate AllReached(world: World, rows0: Rows, w: seq<MailFile>, rows: Rows) {
    && rows.Keys == rows0.Keys + Scan(w)
    && forall h :: h in rows ==> Reached(w, h, Base(world, rows0, w, h), rows[h])
  }

  lemma ReachedIsMid(world: World, rows0: Rows, w: seq<MailFile>, rows: Rows)
    requires Grounded(world, w, rows0) && AllReached(world, rows0, w, rows)
    ensures Midway(world, rows0, w, rows)
  {
    forall h | h in rows ensures MidRow(world, rows0, w, h, rows[h]) {
      BaseIsMid(world, w, rows0, w, h);
      if Merged(w, h, Base(world, rows0, w, h), rows[h]) {
        MergedIsMid(world, w, rows0, h, rows[h]);
      } else if Settled(w, h, Base(world, rows0, w, h), rows[h]) {
        SettledIsMid(world, w, rows0, h, rows[h]);
      }
    }
  }

  lemma BetweenReached(world: World, rows0: Rows, w: seq<MailFile>, a: Rows, b: Rows, s: Rows)
    requires AllReached(world, rows0, w, a) && AllReached(world, rows0, w, b) && Between(a, b, s)
    ensures AllReached(world, rows0, w, s)
  {
  }

  lemma PassDone(db0: Table, target: Rows, writes: set<Hash>, db: Table)
    requires Underway(db0, target, writes, {}, db)
    ensures db.rows.Keys == target.Keys && forall h :: h in target ==> db.rows[h] == target[h]
    ensures db.touched == db0.touched + |writes|
  {
    assert writes - {} == writes;
  }

  lemma PassLogged(world: World, rows0: Rows, w: seq<MailFile>, db0: Table, target: Rows, writes: set<Hash>, db: Table, from: nat)
    requires Grounded(world, w, rows0) && AllReached(world, rows0, w, db0.rows) && AllReached(world, rows0, w, target)
    requires Underway(db0, target, writes, {}, db) && Logged(db0, world, rows0, w, from)
    ensures Logged(db, world, rows0, w, from)
  {
    forall i | from <= i < |db.log| ensures Midway(world, rows0, w, db.log[i]) {
      if i < |db0.log| {
        assert db.log[i] == db0.log[i];
      } else {
        BetweenReached(world, rows0, w, db0.rows, target, db.log[i]);
        ReachedIsMid(world, rows0, w, db.log[i]);
      }
    }
  }

  ghost predicate AllMerged(world: World, rows0: Rows, w: seq<MailFile>, rows: Rows) {
    && rows.Keys == rows0.Keys + Scan(w)
    && forall h :: h in rows ==> Merged(w, h, Base(world, rows0, w, h), rows[h])
  }

  ghost predicate AllMoved(world: World, rows0: Rows, w: seq<MailFile>, rows: Rows) {
    && rows.Keys == rows0.Keys + Scan(w)
    && forall h :: h in rows ==>
         if h in Scan(w) then Settled(w, h, Base(world, rows0, w, h), rows[h]) else Merged(w, h, Base(world, rows0, w, h), rows[h])
  }

  lemma MergeWritesAre(t: Walk, world: World, rows0: Rows, w: seq<MailFile>)
    requires RowsWalked(t.db.rows, world, rows0, w) && DupsWalked(t.dupBcc, t.db.rows, w)
    ensures MergeWrites(t) == Merges(world, rows0, w)
  {
    forall h ensures h in MergeWrites(t) <==> h in Merges(world, rows0, w) {
      if h in t.db.rows {
        RowMergeWrites(t, world, rows0, w, h);
      }
    }
  }

  lemma MergeOutcome(t: Walk, world: World, rows0: Rows, w: seq<MailFile>)
    requires RowsWalked(t.db.rows, world, rows0, w) && DupsWalked(t.dupBcc, t.db.rows, w)
    ensures AllReached(world, rows0, w, t.db.rows) && AllMerged(world, rows0, w, MergeTarget(t))
    ensures |MergeWrites(t)| == |Merges(world, rows0, w)|
  {
    forall h | h in t.db.rows ensures Merged(w, h, Base(world, rows0, w, h), MergeTarget(t)[h]) {
      RowMerged(t, world, rows0, w, h);
    }
    MergeWritesAre(t, world, rows0, w);
  }

  lemma SameHashes(a: set<Hash>, b: set<Hash>, rows: set<Hash>)
    requires a <= rows && b <= rows && forall h :: h in rows ==> (h in a <==> h in b)
    ensures a == b
  {
    forall h ensures h in a <==> h in b {
    }
  }

  lemma MoveOutcome(t: Walk, world: World, rows0: Rows, w: seq<MailFile>, merged: Rows)
    requires RowsWalked(t.db.rows, world, rows0, w) && RelocsWalked(t.relocations, t.db.rows, w)
    requires TablesAgree(t.db.rows, t.byFile, t.byHash) && t.seenFiles == Names(w) && t.seenHashes == Scan(w)
    requires AllMerged(world, rows0, w, merged) && merged.Keys == t.byHash.Keys
    ensures AllMoved(world, rows0, w, MoveTarget(t, merged))
    ensures |MoveWrites(t)| == |Moves(rows0, w)|
  {
    forall h | h in merged
      ensures if h in Scan(w) then Settled(w, h, Base(world, rows0, w, h), AfterMove(t, h, merged[h])) else AfterMove(t, h, merged[h]) == merged[h]
      ensures h in Moves(rows0, w) <==> h in MoveWrites(t)
    {
      RowMoved(t, world, rows0, w, h, merged[h]);
    }
    SameHashes(MoveWrites(t), Moves(rows0, w), merged.Keys);
  }

  lemma CloseOutcome(t: Walk, world: World, rows0: Rows, w: seq<MailFile>, moved: Rows)
    requires RowsWalked(t.db.rows, world, rows0, w) && TablesAgree(t.db.rows, t.byFile, t.byHash) && t.seenHashes == Scan(w)
    requires AllMoved(world, rows0, w, moved) && moved.Keys == t.byHash.Keys
    ensures Reconciled(world, rows0, w, CloseTarget(t, moved))
    ensures |CloseWrites(t)| == |Vanished(rows0, w)|
  {
    forall h | h in moved
      ensures Settled(w, h, Base(world, rows0, w, h), AfterClose(t, h, moved[h]))
      ensures h in Vanished(rows0, w) <==> h in CloseWrites(t)
    {
      RowClosed(t, world, rows0, w, h, moved[h]);
    }
    SameHashes(CloseWrites(t), Vanished(rows0, w), moved.Keys);
  }

  lemma StagesReached(world: World, rows0: Rows, w: seq<MailFile>, rows: Rows)
    requires AllMerged(world, rows0, w, rows) || AllMoved(world, rows0, w, rows) || Reconciled(world, rows0, w, rows)
    ensures AllReached(world, rows0, w, rows)
  {
  }

  lemma PassesRecorded(rows0: Rows, from: nat, walked: Table, merged: Table, moved: Table, closed: Table)
    requires Recorded(rows0, from, 0, walked)
    requires walked.log <= merged.log && Recorded(walked.rows, |walked.log|, walked.touched, merged)
    requires merged.log <= moved.log && Recorded(merged.rows, |merged.log|, merged.touched, moved)
    requires moved.log <= closed.log && Recorded(moved.rows, |moved.log|, moved.touched, closed)
    ensures Recorded(rows0, from, 0, closed)
  {
    RecordedOn(rows0, from, 0, walked.rows, |walked.log|, walked.touched, merged);
    RecordedOn(rows0, from, 0, merged.rows, |merged.log|, merged.touched, moved);
    RecordedOn(rows0, from, 0, moved.rows, |moved.log|, moved.touched, closed);
  }

  class MailIndex {
    var db: Table

    /** `upsert_message_set`: one walk, three passes; returns how many rows were written. */
    method UpsertMessageSet(walk: seq<MailFile>, ghost world: World) returns (touched: nat)
      modifies this
      ensures old(db.rows).Keys <= db.rows.Keys
      ensures Recorded(old(db.rows), |old(db.log)|, 0, db) && touched == db.touched
      ensures Grounded(world, walk, old(db.rows)) ==>
                && Reconciled(world, old(db.rows), walk, db.rows)
                && touched == Writes(world, old(db.rows), walk)
                && Logged(db, world, old(db.rows), walk, |old(db.log)|)
    {
      ghost var rows0, from := db.rows, |db.log|;
      var t := WalkFiles(db.(touched := 0), walk, world);
      var merged := MergeDuplicates(t);
      var moved := Relocate(t, merged);
      var closed := SoftDelete(t, moved);
      PassesRecorded(rows0, from, t.db, merged, moved, closed);
      PassesSettle(t, world, rows0, walk, from, merged, moved, closed);
      db := closed;
      touched := db.touched;
    }
  }

  lemma PassesSettle(t: Walk, world: World, rows0: Rows, w: seq<MailFile>, from: nat, merged: Table, moved: Table, closed: Table)
    requires InStep(t, world, rows0, w, w, from)
    requires Underway(t.db, MergeTarget(t), MergeWrites(t), {}, merged)
    requires merged.rows.Keys == t.byHash.Keys && Underway(merged, MoveTarget(t, merged.rows), MoveWrites(t), {}, moved)
    requires moved.rows.Keys == t.byHash.Keys && Underway(moved, CloseTarget(t, moved.rows), CloseWrites(t), {}, closed)
    ensures Grounded(world, w, rows0) ==>
              Reconciled(world, rows0, w, closed.rows) && closed.touched == Writes(world, rows0, w) && Logged(closed, world, rows0, w, from)
  {
    if Grounded(world, w, rows0) {
      MergePass(t, world, rows0, w, from, merged);
      MovePass(t, world, rows0, w, from, merged, moved);
      ClosePass(t, world, rows0, w, from, moved, closed);
    }
  }

  lemma MergePass(t: Walk, world: World, rows0: Rows, w: seq<MailFile>, from: nat, merged: Table)
    requires Grounded(world, w, rows0) && Logged(t.db, world, rows0, w, from)
    requires RowsWalked(t.db.rows, world, rows0, w) && DupsWalked(t.dupBcc, t.db.rows, w)
    requires Underway(t.db, MergeTarget(t), MergeWrites(t), {}, merged)
    ensures AllMerged(world, rows0, w, merged.rows) && Logged(merged, world, rows0, w, from)
    ensures merged.touched == t.db.touched + |Merges(world, rows0, w)|
  {
    PassDone(t.db, MergeTarget(t), MergeWrites(t), merged);
    MergeOutcome(t, world, rows0, w);
    StagesReached(world, rows0, w, MergeTarget(t));
    PassLogged(world, rows0, w, t.db, MergeTarget(t), MergeWrites(t), merged, from);
  }

  lemma MovePass(t: Walk, world: World, rows0: Rows, w: seq<MailFile>, from: nat, merged: Table, moved: Table)
    requires Grounded(world, w, rows0) && Logged(merged, world, rows0, w, from)
    requires RowsWalked(t.db.rows, world, rows0, w) && RelocsWalked(t.relocations, t.db.rows, w)
    requires TablesAgree(t.db.rows, t.byFile, t.byHash) && t.seenFiles == Names(w) && t.seenHashes == Scan(w)
    requires AllMerged(world, rows0, w, merged.rows) && merged.rows.Keys == t.byHash.Keys
    requires Underway(merged, MoveTarget(t, merged.rows), MoveWrites(t), {}, moved)
    ensures AllMoved(world, rows0, w, moved.rows) && Logged(moved, world, rows0, w, from)
    ensures moved.touched == merged.touched + |Moves(rows0, w)|
  {
    PassDone(merged, MoveTarget(t, merged.rows), MoveWrites(t), moved);
    MoveOutcome(t, world, rows0, w, merged.rows);
    StagesReached(world, rows0, w, merged.rows);
    StagesReached(world, rows0, w, MoveTarget(t, merged.rows));
    PassLogged(world, rows0, w, merged, MoveTarget(t, merged.rows), MoveWrites(t), moved, from);
  }

  lemma ClosePass(t: Walk, world: World, rows0: Rows, w: seq<MailFile>, from: nat, moved: Table, closed: Table)
    requires Grounded(world, w, rows0) && Logged(moved, world, rows0, w, from)
    requires RowsWalked(t.db.rows, world, rows0, w) && TablesAgree(t.db.rows, t.byFile, t.byHash) && t.seenHashes == Scan(w)
    requires AllMoved(world, rows0, w, moved.rows) && moved.rows.Keys == t.byHash.Keys
    requires Underway(moved, CloseTarget(t, moved.rows), CloseWrites(t), {}, closed)
    ensures Reconciled(world, rows0, w, closed.rows) && Logged(closed, world, rows0, w, from)
    ensures closed.touched == moved.touched + |Vanished(rows0, w)|
  {
    PassDone(moved, CloseTarget(t, moved.rows), CloseWrites(t), closed);
    CloseOutcome(t, world, rows0, w, moved.rows);
    StagesReached(world, rows0, w, moved.rows);
    StagesReached(world, rows0, w, CloseTarget(t, moved.rows));
    PassLogged(world, rows0, w, moved, CloseTarget(t, moved.rows), CloseWrites(t), closed, from);
  }
}
