/**
 * What an import reports and decides, record by record, in terms of the rows of the database:
 * the three counts, and the local constraints that every inserted row meets.
 */
module ConfigImportLaws {
  import opened ConfigImport
  import opened Wrappers

  // ---------------------------------------------------------------------------
  // The report
  // ---------------------------------------------------------------------------

  ghost predicate InsertedAt(job: Job, i: nat, t: nat)
    requires job.Fits() && i < |job.items|
  {
    job.items[i].table == t && job.Verdict(i) == Insert
  }

  ghost predicate SkippedAt(job: Job, i: nat, t: nat)
    requires job.Fits() && i < |job.items|
  {
    job.items[i].table == t && (job.Verdict(i) == SkipSame || job.Verdict(i).SkipNatural?)
  }

  /** How many of the first `i` records were inserted into table `t`. */
  ghost function Inserts(job: Job, i: nat, t: nat): nat
    requires job.Fits() && i <= |job.items|
  {
    if i == 0 then 0 else Inserts(job, i - 1, t) + if InsertedAt(job, i - 1, t) then 1 else 0
  }

  /** How many of them were skipped, found by their key or by their natural key. */
  ghost function Skips(job: Job, i: nat, t: nat): nat
    requires job.Fits() && i <= |job.items|
  {
    if i == 0 then 0 else Skips(job, i - 1, t) + if SkippedAt(job, i - 1, t) then 1 else 0
  }

  /** How many were inserted in all. */
  ghost function AllInserts(job: Job, i: nat): nat
    requires job.Fits() && i <= |job.items|
  {
    if i == 0 then 0 else AllInserts(job, i - 1) + if job.Verdict(i - 1) == Insert then 1 else 0
  }

  /** The tables of the records that failed, in order. */
  ghost function Failures(job: Job, i: nat): seq<nat>
    requires job.Fits() && i <= |job.items|
  {
    if i == 0 then [] else Failures(job, i - 1) + if job.Verdict(i - 1) == Fail then [job.items[i - 1].table] else []
  }

  /** The report's counts for one table after `i` records. */
  ghost predicate CountsAt(job: Job, i: nat, t: nat)
    requires job.Fits() && i <= |job.items|
  {
    && t < |job.sch| == |job.At(i).imported| == |job.At(i).skipped|
    && job.At(i).imported[t] == job.start.imported[t] + Inserts(job, i, t)
    && job.At(i).skipped[t] == job.start.skipped[t] + Skips(job, i, t)
  }

  lemma CountsStep(job: Job, i: nat, t: nat)
    requires job.Fits() && i < |job.items| && CountsAt(job, i, t)
    ensures CountsAt(job, i + 1, t)
  {
  }

  /** At every point of an import the report counts, for each table, the records inserted and the records skipped. */
  lemma {:induction false} ReportCounts(job: Job, i: nat, t: nat)
    requires job.Fits() && i <= |job.items| && t < |job.sch|
    ensures |job.At(i).imported| == |job.At(i).skipped| == |job.sch|
    ensures job.At(i).imported[t] == job.start.imported[t] + Inserts(job, i, t)
    ensures job.At(i).skipped[t] == job.start.skipped[t] + Skips(job, i, t)
  {
    if i > 0 {
      ReportCounts(job, i - 1, t);
      CountsStep(job, i - 1, t);
    }
  }

  /** The failures are listed in order. */
  lemma {:induction false} ErrorsListed(job: Job, i: nat)
    requires job.Fits() && i <= |job.items|
    ensures job.At(i).errors == job.start.errors + Failures(job, i)
  {
    if i > 0 {
      ErrorsListed(job, i - 1);
    }
  }

  /** The report of a whole export starts from nothing. */
  lemma ReportOfExport(sch: Schema, valid: Valid, db: Db, tables: seq<seq<Record>>, t: nat)
    requires |tables| == |sch| && t < |sch|
    ensures var job := JobOf(sch, valid, db, tables);
            var n := |job.items|;
            && job.Fits() && job.At(0).db == db && |job.At(n).imported| == |job.At(n).skipped| == |sch|
            && job.At(n).imported[t] == Inserts(job, n, t) && job.At(n).skipped[t] == Skips(job, n, t)
            && job.At(n).errors == Failures(job, n)
  {
    JobFits(sch, valid, db, tables);
    var job := JobOf(sch, valid, db, tables);
    ReportCounts(job, |job.items|, t);
    ErrorsListed(job, |job.items|);
  }

  /** The database has grown by exactly the records inserted. */
  lemma {:induction false} InsertsGrowDb(job: Job, i: nat)
    requires job.Fits() && i <= |job.items|
    ensures |job.At(i).db| == |job.start.db| + AllInserts(job, i)
  {
    if i > 0 {
      InsertsGrowDb(job, i - 1);
      if job.Verdict(i - 1) == Insert {
        OneMoreRow(job.At(i - 1).db, job.RowKey(i - 1), job.Row(i - 1));
      }
    }
  }

  lemma OneMoreRow(db: Db, k: Key, r: Record)
    requires k !in db
    ensures |db[k := r]| == |db| + 1
  {
    assert db[k := r].Keys == db.Keys + {k};
  }

  // ---------------------------------------------------------------------------
  // The constraints of the database
  // ---------------------------------------------------------------------------

  /** Some column tells the two rows apart, or is null, which is never equal to anything. */
  ghost predicate ToldApart(cols: seq<Col>, a: Record, b: Record) {
    exists m :: 0 <= m < |cols| && (Get(a, cols[m]) != Get(b, cols[m]) || Get(a, cols[m]) == Null)
  }

  ghost predicate ReferencesThere(sch: Schema, db: Db, t: nat, r: Record)
    requires t < |sch|
  {
    forall c :: c in sch[t].fks && c in r && r[c] != Null ==> Key(sch[t].fks[c], [r[c]]) in db
  }

  ghost predicate AloneIn(sch: Schema, db: Db, k: Key, r: Record)
    requires k.table < |sch|
  {
    forall other, u :: other in db && other != k && other.table == k.table && 0 <= u < |sch[k.table].uniques| ==>
      ToldApart(sch[k.table].uniques[u], db[other], r)
  }

  ghost predicate RowFits(sch: Schema, valid: Valid, db: Db, k: Key) {
    k in db && k.table < |sch| ==>
      valid(k.table, db[k]) && ReferencesThere(sch, db, k.table, db[k]) && AloneIn(sch, db, k, db[k])
  }

  /** Every row is valid, refers to rows that are there, and shares no unique columns with another. */
  ghost predicate Consistent(sch: Schema, valid: Valid, db: Db) {
    forall k {:trigger RowFits(sch, valid, db, k)} :: RowFits(sch, valid, db, k)
  }

  lemma NotSame(cols: seq<Col>, a: Record, b: Record)
    ensures !SameOn(cols, a, b) <==> ToldApart(cols, a, b)
    ensures ToldApart(cols, a, b) <==> ToldApart(cols, b, a)
  {
  }

  lemma ResolvesMeans(sch: Schema, db: Db, t: nat, r: Record)
    requires t < |sch|
    ensures FksResolve(db, sch[t], r) <==> ReferencesThere(sch, db, t, r)
  {
  }

  lemma AloneMeans(sch: Schema, db: Db, k: Key, r: Record)
    requires k.table < |sch| && k !in db
    ensures NoDuplicate(db, k.table, sch[k.table], r) <==> AloneIn(sch, db, k, r)
  {
    forall other, u | other in db && other.table == k.table && 0 <= u < |sch[k.table].uniques|
      ensures !SameOn(sch[k.table].uniques[u], db[other], r) <==> ToldApart(sch[k.table].uniques[u], db[other], r)
    {
      NotSame(sch[k.table].uniques[u], db[other], r);
    }
  }

  /** A new row that the database accepts keeps the other rows as they should be. */
  lemma OthersFit(sch: Schema, valid: Valid, db: Db, k: Key, r: Record, other: Key)
    requires k !in db && k.table < |sch| && AloneIn(sch, db, k, r) && other != k && RowFits(sch, valid, db, other)
    ensures RowFits(sch, valid, db[k := r], other)
  {
    var after := db[k := r];
    if other in db && other.table < |sch| {
      forall o, u | o in after && o != other && o.table == other.table && 0 <= u < |sch[other.table].uniques|
        ensures ToldApart(sch[other.table].uniques[u], after[o], after[other])
      {
        if o == k {
          NotSame(sch[k.table].uniques[u], db[other], r);
        }
      }
    }
  }

  lemma NewRowFits(sch: Schema, valid: Valid, db: Db, k: Key, r: Record)
    requires GoodSchema(sch) && k !in db && k.table < |sch|
    ensures RowFits(sch, valid, db[k := r], k) <==> valid(k.table, r) && ReferencesThere(sch, db, k.table, r) && AloneIn(sch, db, k, r)
  {
    var after := db[k := r];
    assert GoodTable(sch, k.table);
    assert forall c :: c in sch[k.table].fks ==> sch[k.table].fks[c] < k.table;
    assert AloneIn(sch, db, k, r) <==> AloneIn(sch, after, k, r);
  }

  /** The database accepts a new row exactly when it stays consistent with it. */
  lemma AcceptsExactly(sch: Schema, valid: Valid, db: Db, k: Key, r: Record)
    requires GoodSchema(sch) && k !in db && k.table < |sch| && Consistent(sch, valid, db)
    ensures Accepts(db, k.table, sch[k.table], valid, r) <==> Consistent(sch, valid, db[k := r])
  {
    ResolvesMeans(sch, db, k.table, r);
    AloneMeans(sch, db, k, r);
    NewRowFits(sch, valid, db, k, r);
    if Accepts(db, k.table, sch[k.table], valid, r) {
      forall other: Key {:trigger RowFits(sch, valid, db[k := r], other)} ensures RowFits(sch, valid, db[k := r], other) {
        assert RowFits(sch, valid, db, other);
        if other != k {
          OthersFit(sch, valid, db, k, r, other);
        }
      }
    } else {
      assert !RowFits(sch, valid, db[k := r], k);
    }
  }

  // ---------------------------------------------------------------------------
  // What decides a record
  // ---------------------------------------------------------------------------

  /** All key columns are in the record. */
  ghost predicate HasKey(job: Job, i: nat)
    requires job.Fits() && i < |job.items|
  {
    forall m :: 0 <= m < |job.Info(i).pk| ==> job.Info(i).pk[m] in job.items[i].record
  }

  /** The local row `k` has the natural key of the record. */
  ghost predicate IsTwin(job: Job, i: nat, k: Key)
    requires job.Fits() && i < |job.items|
  {
    && job.Info(i).natural.Some? && k in job.At(i).db && k.table == job.items[i].table
    && var c := job.Info(i).natural.value;
       c in job.Row(i) && job.Row(i)[c] != Null && c in job.At(i).db[k] && job.At(i).db[k][c] == job.Row(i)[c]
  }

  ghost predicate HasTwin(job: Job, i: nat)
    requires job.Fits() && i < |job.items|
  {
    exists k :: IsTwin(job, i, k)
  }

  /** The record as it is used: references through the remap, everything else as exported. */
  lemma RowAsMapped(job: Job, i: nat)
    requires job.Fits() && i < |job.items|
    ensures job.Row(i).Keys == job.items[i].record.Keys
    ensures forall c :: c in job.items[i].record ==>
              job.Row(i)[c] == if c in job.Info(i).fks && job.items[i].record[c] in job.At(i).remap
                               then job.At(i).remap[job.items[i].record[c]] else job.items[i].record[c]
    ensures job.RowKey(i).table == job.items[i].table && |job.RowKey(i).pk| == |job.Info(i).pk|
    ensures HasKey(job, i) ==> forall m :: 0 <= m < |job.Info(i).pk| ==> job.RowKey(i).pk[m] == job.Row(i)[job.Info(i).pk[m]]
  {
  }

  lemma TwinMatches(job: Job, i: nat)
    requires job.Fits() && i < |job.items|
    ensures HasTwin(job, i) <==>
            && job.Info(i).natural.Some? && Get(job.Row(i), job.Info(i).natural.value) != Null
            && HasMatch(job.At(i).db, job.items[i].table, job.Info(i).natural.value, Get(job.Row(i), job.Info(i).natural.value))
  {
    if job.Info(i).natural.Some? {
      var c := job.Info(i).natural.value;
      forall k ensures IsTwin(job, i, k) <==> Get(job.Row(i), c) != Null && Matches(job.At(i).db, k, job.items[i].table, c, Get(job.Row(i), c)) {
      }
    }
  }

  /** A record is found by its key first, then by its natural key, as the row that has it. */
  lemma FoundExactly(job: Job, i: nat)
    requires job.Fits() && i < |job.items|
    ensures job.Verdict(i) == SkipSame <==> HasKey(job, i) && job.RowKey(i) in job.At(i).db
    ensures job.Verdict(i).SkipNatural? <==> HasKey(job, i) && job.RowKey(i) !in job.At(i).db && HasTwin(job, i)
    ensures job.Verdict(i).SkipNatural? ==>
              exists k :: IsTwin(job, i, k) && job.Verdict(i).local == if k.pk == [] then Null else k.pk[0]
  {
    RowAsMapped(job, i);
    TwinMatches(job, i);
    if job.Verdict(i).SkipNatural? {
      var c := job.Info(i).natural.value;
      var k := FirstMatch(job.At(i).db, job.items[i].table, c, Get(job.Row(i), c));
      assert IsTwin(job, i, k);
    }
  }

  /** A record that is not found is inserted exactly when the database stays consistent with it. */
  lemma InsertedExactly(job: Job, i: nat)
    requires job.Fits() && GoodSchema(job.sch) && i < |job.items| && Consistent(job.sch, job.valid, job.At(i).db)
    ensures job.Verdict(i) == Insert <==>
            && HasKey(job, i) && job.RowKey(i) !in job.At(i).db && !HasTwin(job, i)
            && Consistent(job.sch, job.valid, job.At(i).db[job.RowKey(i) := job.Row(i)])
  {
    FoundExactly(job, i);
    RowAsMapped(job, i);
    if job.RowKey(i) !in job.At(i).db {
      AcceptsExactly(job.sch, job.valid, job.At(i).db, job.RowKey(i), job.Row(i));
    }
  }

  /** Of any local database: what an inserted row refers to is there, and stays there. */
  lemma InsertedRefersToRows(job: Job, i: nat, c: Col)
    requires job.Fits() && i < |job.items| && job.Verdict(i) == Insert
    requires c in job.Info(i).fks && c in job.Row(i) && job.Row(i)[c] != Null
    ensures Key(job.Info(i).fks[c], [job.Row(i)[c]]) in job.At(|job.items|).db
  {
    ResolvesMeans(job.sch, job.At(i).db, job.items[i].table, job.Row(i));
    DbOnlyGrows(job, i, |job.items|);
  }

  /**
   * Whatever the export holds, closed or not, a consistent database stays consistent: every
   * reference of every row resolves, and no unique columns are shared.
   */
  lemma {:induction false} ImportKeepsConsistent(job: Job, i: nat)
    requires job.Fits() && GoodSchema(job.sch) && Consistent(job.sch, job.valid, job.start.db) && i <= |job.items|
    ensures Consistent(job.sch, job.valid, job.At(i).db)
  {
    if i > 0 {
      ImportKeepsConsistent(job, i - 1);
      InsertedExactly(job, i - 1);
    }
  }
}
