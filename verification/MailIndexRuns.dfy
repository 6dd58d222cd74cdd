/**
 * What the mail index promises: after a walk the alive rows are what a scan from scratch
 * would find, whatever happened before, and a walk over an unchanged tree settles.
 */
module MailIndexRuns {
  import opened Wrappers
  import opened MailIndex

  ghost function Alive(rows: Rows): set<Hash> {
    set h | h in rows && rows[h].alive
  }

  ghost predicate OnDisk(w: seq<MailFile>, h: Hash, c: Coords) {
    exists f :: f in w && IsCopy(f, h) && f.coords == c
  }

  /** The fast walk refines the scan: alive rows are the parseable hashes, each pointing at a copy. */
  lemma AliveIsScan(world: World, rows0: Rows, w: seq<MailFile>, rows1: Rows)
    requires Grounded(world, w, rows0) && Reconciled(world, rows0, w, rows1)
    ensures rows0.Keys <= rows1.Keys
    ensures forall h :: h in Alive(rows1) <==> exists f :: f in w && f.content.readable && f.content.messageId == Some(h)
    ensures forall h :: h in Alive(rows1) ==> OnDisk(w, h, rows1[h].coords)
  {
    forall h ensures h in Alive(rows1) <==> exists f :: f in w && IsCopy(f, h) {
      ScanMeans(w, h);
    }
    forall h | h in Alive(rows1) ensures OnDisk(w, h, rows1[h].coords) {
      PointerOnDisk(world, rows0, w, h, rows1[h]);
    }
  }

  lemma PointerOnDisk(world: World, rows0: Rows, w: seq<MailFile>, h: Hash, r: Row)
    requires Grounded(world, w, rows0) && h in Scan(w)
    requires Settled(w, h, Base(world, rows0, w, h), r)
    ensures OnDisk(w, h, r.coords) && r.coords in Names(w)
  {
    var base := Base(world, rows0, w, h);
    ScanFinds(w, h);
    FirstCopyMeans(w, h, {});
    NamesMean(w, r.coords);
    if base.coords in Names(w) {
      var f :| f in w && f.coords == base.coords;
      if h !in rows0 {
        assert base.coords == FirstCopy(w, h, {}).value.coords;
      }
    }
  }

  /** A pointer moves only when its file has gone, and only to another copy of the same message. */
  lemma PointersStay(world: World, rows0: Rows, w: seq<MailFile>, rows1: Rows, h: Hash)
    requires Grounded(world, w, rows0) && Reconciled(world, rows0, w, rows1) && h in rows0
    ensures rows1[h].coords != rows0[h].coords ==> rows0[h].coords !in Names(w) && OnDisk(w, h, rows1[h].coords)
  {
    if h in Scan(w) {
      PointerOnDisk(world, rows0, w, h, rows1[h]);
    }
  }

  // ---------------------------------------------------------------------------
  // Interrupted walks
  // ---------------------------------------------------------------------------

  /** Whatever state a killed walk leaves, the index is still grounded in the disk. */
  lemma MidwayGrounded(world: World, rows0: Rows, w: seq<MailFile>, s: Rows)
    requires Grounded(world, w, rows0) && Midway(world, rows0, w, s)
    ensures Grounded(world, w, s)
  {
    forall h | h in s && s[h].coords in Names(w) ensures ParsedHash(world(s[h].coords)) == Some(h) {
      assert MidRow(world, rows0, w, h, s[h]);
    }
  }

  lemma AliveSet(world: World, rows0: Rows, w: seq<MailFile>, rows1: Rows)
    requires Reconciled(world, rows0, w, rows1)
    ensures forall h :: h in Alive(rows1) <==> h in Scan(w)
  {
    forall h | h in rows1 ensures rows1[h].alive == (h in Scan(w)) {
      assert Settled(w, h, Base(world, rows0, w, h), rows1[h]);
    }
  }

  /** The same tree, walked in whatever order the file system gives. */
  ghost predicate SameFiles(w: seq<MailFile>, v: seq<MailFile>) {
    forall f :: f in w <==> f in v
  }

  lemma SameScan(w: seq<MailFile>, v: seq<MailFile>)
    requires SameFiles(w, v)
    ensures forall h :: h in Scan(w) <==> h in Scan(v)
  {
    forall h ensures h in Scan(w) <==> h in Scan(v) {
      ScanMeans(w, h);
      ScanMeans(v, h);
    }
  }

  lemma SameNames(w: seq<MailFile>, v: seq<MailFile>)
    requires SameFiles(w, v)
    ensures forall c :: c in Names(w) <==> c in Names(v)
  {
    forall c ensures c in Names(w) <==> c in Names(v) {
      NamesMean(w, c);
      NamesMean(v, c);
    }
  }

  lemma SameGrounded(world: World, w: seq<MailFile>, v: seq<MailFile>, rows: Rows)
    requires SameFiles(w, v) && Grounded(world, w, rows)
    ensures Grounded(world, v, rows)
  {
    SameNames(w, v);
  }

  /**
   * A walk killed anywhere and run again, over the same files in any order, ends with the rows and
   * the alive set an uninterrupted one gives: the state left behind meets what the rerun asks for.
   */
  lemma KilledWalkConverges(world: World, rows0: Rows, w: seq<MailFile>, s: Rows, straight: Rows, v: seq<MailFile>, resumed: Rows)
    requires Grounded(world, w, rows0) && Midway(world, rows0, w, s) && SameFiles(w, v)
    requires Reconciled(world, rows0, w, straight)
    requires Grounded(world, v, s) ==> Reconciled(world, s, v, resumed)
    ensures forall h :: h in Alive(resumed) <==> h in Alive(straight)
    ensures forall h :: h in resumed <==> h in straight
  {
    MidwayGrounded(world, rows0, w, s);
    SameGrounded(world, w, v, s);
    SameScan(w, v);
    AliveSet(world, rows0, w, straight);
    AliveSet(world, s, v, resumed);
  }

  // ---------------------------------------------------------------------------
  // Walks over an unchanged tree
  // ---------------------------------------------------------------------------

  /** After a walk every copy's Bcc is on the row, except the one its own pointer names. */
  lemma BccElsewhereKept(world: World, rows0: Rows, w: seq<MailFile>, rows1: Rows, h: Hash)
    requires Grounded(world, w, rows0) && Reconciled(world, rows0, w, rows1) && h in Scan(w)
    ensures BccOf(w, h, {rows1[h].coords}) <= Elems(rows1[h].recips.bcc)
  {
    var base := Base(world, rows0, w, h);
    forall a | a in BccOf(w, h, {rows1[h].coords}) ensures a in Elems(rows1[h].recips.bcc) {
      BccMeans(w, h, {rows1[h].coords}, a);
      BccMeans(w, h, {base.coords}, a);
      var f :| f in w && IsCopy(f, h) && f.coords != rows1[h].coords && a in f.content.recips.bcc;
      if base.coords !in Names(w) {
        NamesMean(w, f.coords);
      }
    }
  }

  lemma SameBcc(w: seq<MailFile>, v: seq<MailFile>, h: Hash, except: set<Coords>)
    requires SameFiles(w, v)
    ensures forall a :: a in BccOf(w, h, except) <==> a in BccOf(v, h, except)
  {
    forall a ensures a in BccOf(w, h, except) <==> a in BccOf(v, h, except) {
      BccMeans(w, h, except, a);
      BccMeans(v, h, except, a);
    }
  }

  /** A row of a message on disk is done: its pointer is there, it is alive, and no copy has more Bcc. */
  lemma SeenRowIsDone(world: World, rows0: Rows, w: seq<MailFile>, rows1: Rows, h: Hash)
    requires Grounded(world, w, rows0) && Reconciled(world, rows0, w, rows1) && h in Scan(w)
    ensures h in rows1 && rows1[h].coords in Names(w) && rows1[h].alive
    ensures BccOf(w, h, {rows1[h].coords}) <= Elems(rows1[h].recips.bcc)
  {
    PointerOnDisk(world, rows0, w, h, rows1[h]);
    BccElsewhereKept(world, rows0, w, rows1, h);
  }

  /** A row of a message that is gone is done: it is dead, and points nowhere. */
  lemma GoneRowIsDone(world: World, rows0: Rows, w: seq<MailFile>, rows1: Rows, h: Hash)
    requires Grounded(world, w, rows0) && Reconciled(world, rows0, w, rows1) && h in rows1 && h !in Scan(w)
    ensures !rows1[h].alive && rows1[h].coords !in Names(w)
  {
    ReconciledGrounded(world, rows0, w, rows1);
    if rows1[h].coords in Names(w) {
      NamesMean(w, rows1[h].coords);
      ScanMeans(w, h);
    }
  }

  /** Rows that are done for every message of a walk leave it nothing to write. */
  ghost predicate AllDone(rows: Rows, v: seq<MailFile>) {
    && (forall h :: h in Scan(v) ==> h in rows)
    && forall h :: h in rows ==>
      if h in Scan(v) then
        rows[h].coords in Names(v) && rows[h].alive && !rows[h].pending && BccOf(v, h, {rows[h].coords}) <= Elems(rows[h].recips.bcc)
      else !rows[h].alive && rows[h].coords !in Names(v)
  }

  lemma Nobody<T(!new)>(s: set<T>)
    requires forall h :: h !in s
    ensures |s| == 0
  {
    assert s == {};
  }

  lemma NoMerges(world: World, rows: Rows, v: seq<MailFile>)
    requires AllDone(rows, v)
    ensures |Merges(world, rows, v)| == 0
  {
    forall h ensures h !in Merges(world, rows, v) {
      if h in Scan(v) {
        assert Base(world, rows, v, h) == rows[h];
      }
    }
    Nobody(Merges(world, rows, v));
  }

  lemma NoOtherWrites(rows: Rows, v: seq<MailFile>)
    requires AllDone(rows, v)
    ensures |Rereads(rows, v)| + |Scan(v) - rows.Keys| + |Moves(rows, v)| + |Vanished(rows, v)| == 0
  {
    forall h ensures h !in Rereads(rows, v) && h !in Scan(v) - rows.Keys && h !in Moves(rows, v) && h !in Vanished(rows, v) {
      if h in rows || h in Scan(v) {
        assert h in rows;
      }
    }
    Nobody(Rereads(rows, v));
    Nobody(Scan(v) - rows.Keys);
    Nobody(Moves(rows, v));
    Nobody(Vanished(rows, v));
  }

  lemma NothingToWrite(world: World, rows: Rows, v: seq<MailFile>)
    requires AllDone(rows, v)
    ensures Writes(world, rows, v) == 0
  {
    NoMerges(world, rows, v);
    NoOtherWrites(rows, v);
  }

  lemma DoneInAnyOrder(rows: Rows, w: seq<MailFile>, v: seq<MailFile>)
    requires AllDone(rows, w) && SameFiles(w, v)
    ensures AllDone(rows, v)
  {
    SameScan(w, v);
    SameNames(w, v);
    forall h | h in rows && h in Scan(v) ensures BccOf(v, h, {rows[h].coords}) <= Elems(rows[h].recips.bcc) {
      forall a | a in BccOf(v, h, {rows[h].coords}) ensures a in Elems(rows[h].recips.bcc) {
        SameBcc(w, v, h, {rows[h].coords});
      }
    }
  }

  lemma RerunWritesNothing(world: World, rows0: Rows, w: seq<MailFile>, rows1: Rows, v: seq<MailFile>)
    requires Grounded(world, w, rows0) && Reconciled(world, rows0, w, rows1) && SameFiles(w, v)
    requires forall h :: h in rows1 && h in Scan(w) ==> !rows1[h].pending
    ensures Writes(world, rows1, v) == 0
  {
    forall h | h in rows1 || h in Scan(w)
      ensures h in rows1
      ensures if h in Scan(w) then
                rows1[h].coords in Names(w) && rows1[h].alive && BccOf(w, h, {rows1[h].coords}) <= Elems(rows1[h].recips.bcc)
              else !rows1[h].alive && rows1[h].coords !in Names(w)
    {
      if h in Scan(w) {
        SeenRowIsDone(world, rows0, w, rows1, h);
      } else {
        GoneRowIsDone(world, rows0, w, rows1, h);
      }
    }
    DoneInAnyOrder(rows1, w, v);
    NothingToWrite(world, rows1, v);
  }

  /** With nothing pending at the start, a second walk over the same files, in any order, writes nothing. */
  lemma SecondRunWritesNothing(world: World, rows0: Rows, w: seq<MailFile>, rows1: Rows, v: seq<MailFile>)
    requires Grounded(world, w, rows0) && Reconciled(world, rows0, w, rows1) && SameFiles(w, v)
    requires forall h :: h in rows0 ==> !rows0[h].pending
    ensures Writes(world, rows1, v) == 0
  {
    RerunWritesNothing(world, rows0, w, rows1, v);
  }

  /** Whatever was pending, a third walk over the same files writes nothing, each walk in an order of its own. */
  lemma ThirdRunWritesNothing(world: World, rows0: Rows, w: seq<MailFile>, rows1: Rows, v: seq<MailFile>, rows2: Rows, u: seq<MailFile>)
    requires Grounded(world, w, rows0) && Reconciled(world, rows0, w, rows1) && SameFiles(w, v) && SameFiles(v, u)
    requires Reconciled(world, rows1, v, rows2)
    ensures Writes(world, rows2, u) == 0
  {
    ReconciledGrounded(world, rows0, w, rows1);
    SameGrounded(world, w, v, rows1);
    SameScan(w, v);
    SameNames(w, v);
    forall h | h in rows2 && h in Scan(v) ensures !rows2[h].pending {
      PointerOnDisk(world, rows0, w, h, rows1[h]);
    }
    RerunWritesNothing(world, rows1, v, rows2, u);
  }

  lemma ReconciledIsMidway(world: World, rows0: Rows, w: seq<MailFile>, rows1: Rows)
    requires Grounded(world, w, rows0) && Reconciled(world, rows0, w, rows1)
    ensures Midway(world, rows0, w, rows1)
  {
    forall h | h in rows1 ensures MidRow(world, rows0, w, h, rows1[h]) {
      SettledIsMid(world, w, rows0, h, rows1[h]);
    }
  }

  lemma ReconciledGrounded(world: World, rows0: Rows, w: seq<MailFile>, rows1: Rows)
    requires Grounded(world, w, rows0) && Reconciled(world, rows0, w, rows1)
    ensures Grounded(world, w, rows1)
  {
    ReconciledIsMidway(world, rows0, w, rows1);
    MidwayGrounded(world, rows0, w, rows1);
  }

  // ---------------------------------------------------------------------------
  // Recipients
  // ---------------------------------------------------------------------------

  /** Every alive row carries the Bcc of every copy on disk, and keeps carrying its pointer's. */
  lemma BccIsLossless(world: World, rows0: Rows, w: seq<MailFile>, rows1: Rows)
    requires Grounded(world, w, rows0) && RecipientsKept(world, rows0) && Reconciled(world, rows0, w, rows1)
    ensures RecipientsKept(world, rows1)
    ensures forall h, f, a :: h in Alive(rows1) && f in w && IsCopy(f, h) && a in f.content.recips.bcc ==> a in rows1[h].recips.bcc
    ensures forall h :: h in rows0 && !rows0[h].pending ==> rows0[h].recips.bcc <= rows1[h].recips.bcc
  {
    ReconciledIsMidway(world, rows0, w, rows1);
    forall h | h in rows1 ensures Carries(world, rows1[h]) {
      assert MidRow(world, rows0, w, h, rows1[h]);
    }
    forall h | h in rows0 && !rows0[h].pending ensures rows0[h].recips.bcc <= rows1[h].recips.bcc {
      assert MidRow(world, rows0, w, h, rows1[h]);
    }
    forall h, f, a | h in Alive(rows1) && f in w && IsCopy(f, h) && a in f.content.recips.bcc ensures a in rows1[h].recips.bcc {
      RowHoldsBcc(world, rows0, w, rows1, h, f, a);
    }
  }

  lemma RowHoldsBcc(world: World, rows0: Rows, w: seq<MailFile>, rows1: Rows, h: Hash, f: MailFile, a: Addr)
    requires Grounded(world, w, rows0) && RecipientsKept(world, rows0) && Reconciled(world, rows0, w, rows1)
    requires h in Scan(w) && f in w && IsCopy(f, h) && a in f.content.recips.bcc
    ensures a in Elems(rows1[h].recips.bcc)
  {
    var base := Base(world, rows0, w, h);
    if f.coords != base.coords {
      BccMeans(w, h, {base.coords}, a);
    } else {
      NamesMean(w, f.coords);
      ScanFinds(w, h);
      FirstCopyMeans(w, h, {});
    }
  }

  /** The walk meets its first copy of `h` at `i`. */
  ghost predicate IsFirst(w: seq<MailFile>, i: nat, h: Hash) {
    && i < |w| && w[i].content.readable && w[i].content.messageId == Some(h)
    && forall j :: 0 <= j < i ==> !(w[j].content.readable && w[j].content.messageId == Some(h))
  }

  lemma {:induction false} FirstIsFirst(w: seq<MailFile>, h: Hash) returns (i: nat)
    requires h in Scan(w)
    ensures IsFirst(w, i, h) && FirstCopy(w, h, {}) == Some(w[i])
  {
    var init := w[..|w| - 1];
    ScanFinds(w, h);
    if FirstCopy(init, h, {}).Some? {
      ScanFinds(init, h);
      i := FirstIsFirst(init, h);
    } else {
      FirstCopyMeans(init, h, {});
      i := |w| - 1;
      forall j | 0 <= j < i ensures !IsCopy(w[j], h) {
        assert w[j] == init[j];
      }
    }
  }

  /** A new row has the place and the headers of the first copy walked, each where it belongs. */
  lemma NewRowAsParsed(world: World, rows0: Rows, w: seq<MailFile>, rows1: Rows, h: Hash) returns (i: nat)
    requires Grounded(world, w, rows0) && Reconciled(world, rows0, w, rows1) && h in rows1 && h !in rows0
    ensures IsFirst(w, i, h) && rows1[h].coords == w[i].coords && !rows1[h].pending && rows1[h].alive
    ensures rows1[h].recips.to == w[i].content.recips.to && rows1[h].recips.cc == w[i].content.recips.cc
    ensures w[i].content.recips.bcc <= rows1[h].recips.bcc
  {
    i := FirstIsFirst(w, h);
    NamesMean(w, w[i].coords);
    assert Settled(w, h, Base(world, rows0, w, h), rows1[h]);
  }

  /** An old row keeps its To and Cc, unless it was pending and its file was met; then it has its file's. */
  lemma OldRowHeaders(world: World, rows0: Rows, w: seq<MailFile>, rows1: Rows, h: Hash)
    requires Reconciled(world, rows0, w, rows1) && h in rows0
    ensures var r0, r1, met := rows0[h], rows1[h], exists f :: f in w && f.coords == rows0[h].coords;
            && (r1.pending <==> r0.pending && !met)
            && (if r0.pending && met
                then r1.recips.to == world(r0.coords).recips.to && r1.recips.cc == world(r0.coords).recips.cc
                     && world(r0.coords).recips.bcc <= r1.recips.bcc
                else r1.recips.to == r0.recips.to && r1.recips.cc == r0.recips.cc && r0.recips.bcc <= r1.recips.bcc)
  {
    NamesMean(w, rows0[h].coords);
    assert Settled(w, h, Base(world, rows0, w, h), rows1[h]);
  }

  // ---------------------------------------------------------------------------
  // Whole histories: mail comes, goes and is renamed, walks finish or are killed
  // ---------------------------------------------------------------------------

  datatype Moment = Moment(rows: Rows, disk: seq<MailFile>)

  ghost predicate Truthful(world: World, disk: seq<MailFile>) {
    forall f :: f in disk ==> f.content == world(f.coords)
  }

  /** Every pointer, on disk or not, names content with its row's hash. */
  ghost predicate Anchored(world: World, rows: Rows) {
    forall h :: h in rows ==> ParsedHash(world(rows[h].coords)) == Some(h)
  }

  /** Every row that is not pending has the To and Cc of one content with its hash. */
  ghost predicate AllHeaded(world: World, rows: Rows) {
    forall h :: h in rows && !rows[h].pending ==> Headed(world, h, rows[h])
  }

  ghost predicate DiskChanges(world: World, a: Moment, b: Moment) {
    b.rows == a.rows && Truthful(world, b.disk)
  }

  ghost predicate WalkFinishes(world: World, a: Moment, b: Moment) {
    b.disk == a.disk && Reconciled(world, a.rows, a.disk, b.rows)
  }

  ghost predicate WalkIsKilled(world: World, a: Moment, b: Moment) {
    b.disk == a.disk && Midway(world, a.rows, a.disk, b.rows)
  }

  /** One step: the disk changes, a walk finishes, or a walk is killed. */
  ghost predicate Happens(world: World, a: Moment, b: Moment) {
    DiskChanges(world, a, b) || WalkFinishes(world, a, b) || WalkIsKilled(world, a, b)
  }

  ghost predicate HappensAt(world: World, run: seq<Moment>, i: nat)
    requires 0 < i < |run|
  {
    Happens(world, run[i - 1], run[i])
  }

  ghost predicate History(world: World, run: seq<Moment>) {
    forall i :: 0 < i < |run| ==> HappensAt(world, run, i)
  }

  ghost predicate Sound(world: World, m: Moment) {
    Truthful(world, m.disk) && Anchored(world, m.rows) && RecipientsKept(world, m.rows) && AllHeaded(world, m.rows)
  }

  lemma SoundIsGrounded(world: World, m: Moment)
    requires Sound(world, m)
    ensures Grounded(world, m.disk, m.rows)
  {
  }

  lemma MidwaySound(world: World, a: Moment, b: Moment)
    requires Sound(world, a) && WalkIsKilled(world, a, b)
    ensures Sound(world, b) && a.rows.Keys <= b.rows.Keys
  {
    MidwayHeaded(world, a, b);
    forall h | h in b.rows ensures ParsedHash(world(b.rows[h].coords)) == Some(h) && Carries(world, b.rows[h]) {
      assert MidRow(world, a.rows, a.disk, h, b.rows[h]);
    }
  }

  lemma MidwayHeaded(world: World, a: Moment, b: Moment)
    requires Sound(world, a) && WalkIsKilled(world, a, b)
    ensures AllHeaded(world, b.rows)
  {
    forall h | h in b.rows && !b.rows[h].pending ensures Headed(world, h, b.rows[h]) {
      assert MidRow(world, a.rows, a.disk, h, b.rows[h]);
      if h in a.rows && !a.rows[h].pending {
        var c: Coords :| ParsedHash(world(c)) == Some(h) && SameHeaders(a.rows[h].recips, world(c).recips);
        assert SameHeaders(b.rows[h].recips, world(c).recips);
      }
    }
  }

  lemma StepSound(world: World, a: Moment, b: Moment)
    requires Sound(world, a) && Happens(world, a, b)
    ensures Sound(world, b) && a.rows.Keys <= b.rows.Keys
  {
    if WalkFinishes(world, a, b) {
      SoundIsGrounded(world, a);
      ReconciledIsMidway(world, a.rows, a.disk, b.rows);
    }
    if !DiskChanges(world, a, b) {
      MidwaySound(world, a, b);
    }
  }

  lemma HistoryStep(world: World, run: seq<Moment>, j: nat)
    requires History(world, run) && 0 < j < |run| && Sound(world, run[j - 1])
    ensures Sound(world, run[j]) && run[j - 1].rows.Keys <= run[j].rows.Keys
  {
    assert HappensAt(world, run, j);
    StepSound(world, run[j - 1], run[j]);
  }

  lemma {:induction false} SoundFrom(world: World, run: seq<Moment>, i: nat, j: nat)
    requires History(world, run) && i <= j < |run| && Sound(world, run[i])
    ensures Sound(world, run[j])
    decreases j
  {
    if i < j {
      SoundFrom(world, run, i, j - 1);
      HistoryStep(world, run, j);
    }
  }

  lemma {:induction false} RowsStay(world: World, run: seq<Moment>, i: nat, j: nat, h: Hash)
    requires History(world, run) && i <= j < |run| && Sound(world, run[i]) && h in run[i].rows
    ensures h in run[j].rows
    decreases j
  {
    if i < j {
      RowsStay(world, run, i, j - 1, h);
      SoundFrom(world, run, i, j - 1);
      HistoryStep(world, run, j);
    }
  }

  /** Soundness holds at every moment of every history, and no row is ever removed. */
  lemma HistorySound(world: World, run: seq<Moment>, i: nat, j: nat)
    requires History(world, run) && i <= j < |run| && Sound(world, run[0])
    ensures Sound(world, run[i]) && Sound(world, run[j]) && run[i].rows.Keys <= run[j].rows.Keys
  {
    SoundFrom(world, run, 0, i);
    SoundFrom(world, run, i, j);
    forall h | h in run[i].rows ensures h in run[j].rows {
      RowsStay(world, run, i, j, h);
    }
  }

  /** In any history from an empty index, a finished walk leaves exactly the mail on disk, Bcc complete. */
  lemma FinishedWalkIsExact(world: World, run: seq<Moment>, i: nat)
    requires History(world, run) && 0 < i < |run| && Truthful(world, run[0].disk) && run[0].rows == map[]
    requires WalkFinishes(world, run[i - 1], run[i])
    ensures forall h :: h in Alive(run[i].rows) <==>
              exists f :: f in run[i].disk && f.content.readable && f.content.messageId == Some(h)
    ensures forall h :: h in Alive(run[i].rows) ==> OnDisk(run[i].disk, h, run[i].rows[h].coords)
    ensures forall h, f, a :: h in Alive(run[i].rows) && f in run[i].disk && IsCopy(f, h) && a in f.content.recips.bcc ==>
              a in run[i].rows[h].recips.bcc
  {
    HistorySound(world, run, i - 1, i - 1);
    SoundIsGrounded(world, run[i - 1]);
    AliveIsScan(world, run[i - 1].rows, run[i].disk, run[i].rows);
    BccIsLossless(world, run[i - 1].rows, run[i].disk, run[i].rows);
  }
}
