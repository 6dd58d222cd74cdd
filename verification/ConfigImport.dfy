/**
 * Importing a configuration export into a database that is not empty: table by table, row
 * by row, identities found again through natural keys, foreign keys rewritten, errors
 * contained per row.
 */
module ConfigImport {
  import opened Wrappers

  /** The columns that keys and constraints mention; `Plain` stands for the others. */
  datatype Col =
    | Id | UserId | StoreId | RepositoryId | AccountId | GroupId | OwnerId | DestinationId
    | Username | OidcSubject | Name | Path | MaildirPath | Prefix | Plain(n: nat)

  datatype Cell = Null | Val(id: int)
  type Record = map<Col, Cell>

  /** A row of the database is named by its table and its primary-key cells. */
  datatype Key = Key(table: nat, pk: seq<Cell>)
  type Db = map<Key, Record>

  /** What the import reads off the metadata of one table; tables are numbered in insert order. */
  datatype TableInfo = TableInfo(pk: seq<Col>, fks: map<Col, nat>, natural: Option<Col>, uniques: seq<seq<Col>>)
  type Schema = seq<TableInfo>

  datatype Item = Item(table: nat, record: Record)

  /** Constraints on a row alone: types, NOT NULL, whether its secrets can be encrypted. */
  type Valid = (nat, Record) -> bool

  function Get(r: Record, c: Col): Cell {
    if c in r then r[c] else Null
  }

  function Cells(cols: seq<Col>, r: Record): seq<Cell> {
    seq(|cols|, i requires 0 <= i < |cols| => Get(r, cols[i]))
  }

  predicate HasAll(cols: seq<Col>, r: Record) {
    forall i :: 0 <= i < |cols| ==> cols[i] in r
  }

  // ---------------------------------------------------------------------------
  // One row
  // ---------------------------------------------------------------------------

  function Phi(remap: map<Cell, Cell>, v: Cell): Cell {
    if v in remap then remap[v] else v
  }

  /** The record with its foreign-key columns rewritten. */
  function Mapped(fks: map<Col, nat>, remap: map<Cell, Cell>, r: Record): Record {
    map c | c in r :: if c in fks then Phi(remap, r[c]) else r[c]
  }

  predicate SameOn(cols: seq<Col>, a: Record, b: Record) {
    forall i :: 0 <= i < |cols| ==> Get(a, cols[i]) == Get(b, cols[i]) && Get(a, cols[i]) != Null
  }

  predicate FksResolve(db: Db, info: TableInfo, r: Record) {
    forall c :: c in info.fks && Get(r, c) != Null ==> Key(info.fks[c], [Get(r, c)]) in db
  }

  predicate NoDuplicate(db: Db, t: nat, info: TableInfo, r: Record) {
    forall k, i :: k in db && k.table == t && 0 <= i < |info.uniques| ==> !SameOn(info.uniques[i], db[k], r)
  }

  predicate Accepts(db: Db, t: nat, info: TableInfo, valid: Valid, r: Record) {
    FksResolve(db, info, r) && NoDuplicate(db, t, info, r) && valid(t, r)
  }

  predicate Matches(db: Db, k: Key, t: nat, c: Col, v: Cell) {
    k in db && k.table == t && Get(db[k], c) == v
  }

  predicate HasMatch(db: Db, t: nat, c: Col, v: Cell) {
    exists k :: k in db && Matches(db, k, t, c, v)
  }

  /** `.first()` of the rows with this natural key. */
  ghost function FirstMatch(db: Db, t: nat, c: Col, v: Cell): (k: Key)
    requires HasMatch(db, t, c, v)
    ensures Matches(db, k, t, c, v)
  {
    var k :| Matches(db, k, t, c, v); k
  }

  datatype Outcome = SkipSame | SkipNatural(local: Cell) | Insert | Fail

  function PkHead(k: Key): Cell {
    if k.pk == [] then Null else k.pk[0]
  }

  ghost function Judge(info: TableInfo, valid: Valid, db: Db, remap: map<Cell, Cell>, it: Item): Outcome {
    var r := Mapped(info.fks, remap, it.record);
    if !HasAll(info.pk, r) then Fail
    else if Key(it.table, Cells(info.pk, r)) in db then SkipSame
    else if info.natural.Some? && Get(r, info.natural.value) != Null && HasMatch(db, it.table, info.natural.value, Get(r, info.natural.value))
    then SkipNatural(PkHead(FirstMatch(db, it.table, info.natural.value, Get(r, info.natural.value))))
    else if Accepts(db, it.table, info, valid, r) then Insert
    else Fail
  }

  datatype Import = Import(db: Db, remap: map<Cell, Cell>, imported: seq<nat>, skipped: seq<nat>, errors: seq<nat>)

  function Bump(s: seq<nat>, t: nat): seq<nat> {
    if t < |s| then s[t := s[t] + 1] else s
  }

  ghost function Apply(info: TableInfo, st: Import, it: Item, v: Outcome): Import {
    var r := Mapped(info.fks, st.remap, it.record);
    match v
    case SkipSame => st.(skipped := Bump(st.skipped, it.table))
    case SkipNatural(local) => st.(remap := st.remap[PkHead(Key(it.table, Cells(info.pk, r))) := local], skipped := Bump(st.skipped, it.table))
    case Insert => st.(db := st.db[Key(it.table, Cells(info.pk, r)) := r], imported := Bump(st.imported, it.table))
    case Fail => st.(errors := st.errors + [it.table])
  }

  /** One import: the records of the export, in table order. */
  datatype Job = Job(sch: Schema, valid: Valid, start: Import, items: seq<Item>) {
    ghost predicate Fits() {
      && (forall i :: 0 <= i < |items| ==> items[i].table < |sch|)
      && |start.imported| == |start.skipped| == |sch|
    }

    ghost function Info(i: nat): TableInfo
      requires Fits() && i < |items|
    {
      sch[items[i].table]
    }

    /** The import after the first `i` records. */
    ghost function At(i: nat): Import
      requires Fits() && i <= |items|
      decreases i, 0
    {
      if i == 0 then start else Apply(Info(i - 1), At(i - 1), items[i - 1], Verdict(i - 1))
    }

    ghost function Verdict(i: nat): Outcome
      requires Fits() && i < |items|
      decreases i, 1
    {
      Judge(Info(i), valid, At(i).db, At(i).remap, items[i])
    }

    /** Record `i` as it is looked up and inserted. */
    ghost function Row(i: nat): Record
      requires Fits() && i < |items|
    {
      Mapped(Info(i).fks, At(i).remap, items[i].record)
    }

    ghost function RowKey(i: nat): Key
      requires Fits() && i < |items|
    {
      Key(items[i].table, Cells(Info(i).pk, Row(i)))
    }
  }

  // ---------------------------------------------------------------------------
  // Nothing local is lost, and every record is accounted for
  // ---------------------------------------------------------------------------

  ghost predicate Extends(a: Db, b: Db) {
    forall k :: k in a ==> k in b && b[k] == a[k]
  }

  lemma StepExtends(info: TableInfo, valid: Valid, st: Import, it: Item)
    ensures Extends(st.db, Apply(info, st, it, Judge(info, valid, st.db, st.remap, it)).db)
  {
  }

  /** Rows that were there before are there afterwards, unchanged. */
  lemma {:induction false} DbOnlyGrows(job: Job, i: nat, j: nat)
    requires job.Fits() && i <= j <= |job.items|
    ensures Extends(job.At(i).db, job.At(j).db)
    decreases j
  {
    if i < j {
      DbOnlyGrows(job, i, j - 1);
      StepExtends(job.Info(j - 1), job.valid, job.At(j - 1), job.items[j - 1]);
    }
  }

  function Sum(s: seq<nat>): nat {
    if s == [] then 0 else Sum(s[..|s| - 1]) + s[|s| - 1]
  }

  lemma {:induction false} SumBump(s: seq<nat>, t: nat)
    requires t < |s|
    ensures Sum(Bump(s, t)) == Sum(s) + 1 && |Bump(s, t)| == |s|
  {
    var last := |s| - 1;
    if t < last {
      SumBump(s[..last], t);
      assert Bump(s, t)[..last] == Bump(s[..last], t);
    } else {
      assert Bump(s, t)[..last] == s[..last];
    }
  }

  ghost function Total(st: Import): nat {
    Sum(st.imported) + Sum(st.skipped) + |st.errors|
  }

  lemma CountStep(info: TableInfo, st: Import, it: Item, v: Outcome)
    requires it.table < |st.imported| == |st.skipped|
    ensures var st' := Apply(info, st, it, v);
            |st'.imported| == |st'.skipped| == |st.imported| && Total(st') == Total(st) + 1
  {
    SumBump(st.imported, it.table);
    SumBump(st.skipped, it.table);
  }

  /** imported + skipped + errors grows by one with every record read. */
  lemma {:induction false} EveryRecordCounted(job: Job, i: nat)
    requires job.Fits() && i <= |job.items|
    ensures |job.At(i).imported| == |job.At(i).skipped| == |job.sch|
    ensures Total(job.At(i)) == Total(job.start) + i
  {
    if i > 0 {
      EveryRecordCounted(job, i - 1);
      CountStep(job.Info(i - 1), job.At(i - 1), job.items[i - 1], job.Verdict(i - 1));
    }
  }

  // ---------------------------------------------------------------------------
  // Schemas and exports
  // ---------------------------------------------------------------------------

  /** A row of its own, or a pure link between two rows. */
  ghost predicate IsEntity(info: TableInfo) {
    |info.pk| == 1 && info.pk[0] !in info.fks
  }

  ghost predicate IsLink(info: TableInfo) {
    && info.natural.None? && info.uniques == []
    && forall i :: 0 <= i < |info.pk| ==> info.pk[i] in info.fks
  }

  ghost predicate GoodTable(sch: Schema, t: nat)
    requires t < |sch|
  {
    && (IsEntity(sch[t]) || IsLink(sch[t]))
    && (forall c {:trigger sch[t].fks[c]} :: c in sch[t].fks ==> sch[t].fks[c] < t && IsEntity(sch[sch[t].fks[c]]))
    && (sch[t].natural.Some? ==> sch[t].natural.value !in sch[t].fks && [sch[t].natural.value] in sch[t].uniques)
  }

  /** Foreign keys point to earlier tables; a natural key is a unique column of its own. */
  ghost predicate GoodSchema(sch: Schema) {
    forall t {:trigger GoodTable(sch, t)} :: 0 <= t < |sch| ==> GoodTable(sch, t)
  }

  /** What the schema says of the table of record `i`. */
  lemma GoodInfo(job: Job, i: nat)
    requires job.Fits() && GoodSchema(job.sch) && i < |job.items|
    ensures GoodTable(job.sch, job.items[i].table)
  {
  }

  ghost function RawPk(job: Job, i: nat): seq<Cell>
    requires job.Fits() && i < |job.items|
  {
    Cells(job.Info(i).pk, job.items[i].record)
  }

  /** The records come in table order, as the two loops read them. */
  ghost predicate InOrder(items: seq<Item>) {
    forall i, j :: 0 <= i < j < |items| ==> items[i].table <= items[j].table
  }

  /** An id names one row of one table, throughout the export, and is not null. */
  ghost predicate IdsUnique(job: Job)
    requires job.Fits()
  {
    && (forall i :: 0 <= i < |job.items| && IsEntity(job.Info(i)) ==> RawPk(job, i) != [Null])
    && (forall i, j :: 0 <= i < j < |job.items| && IsEntity(job.Info(i)) && IsEntity(job.Info(j)) ==> RawPk(job, i) != RawPk(job, j))
  }

  /** Local rows are keyed by as many cells as their table has key columns. */
  ghost predicate KeysFit(sch: Schema, db: Db) {
    forall k :: k in db && k.table < |sch| ==> |k.pk| == |sch[k.table].pk|
  }

  ghost predicate Starts(job: Job) {
    job.Fits() && GoodSchema(job.sch) && InOrder(job.items) && IdsUnique(job) && job.start.remap == map[] && KeysFit(job.sch, job.start.db)
  }

  // ---------------------------------------------------------------------------
  // A closed export meets no dangling foreign key
  // ---------------------------------------------------------------------------

  /** Every reference of a record is the id of some record of the referenced table. */
  ghost predicate Closed(job: Job)
    requires job.Fits()
  {
    forall i, c :: 0 <= i < |job.items| && c in job.Info(i).fks && Get(job.items[i].record, c) != Null ==>
      exists j :: 0 <= j < |job.items| && Refers(job, i, c, j)
  }

  ghost predicate Refers(job: Job, i: nat, c: Col, j: nat)
    requires job.Fits() && i < |job.items| && j < |job.items| && c in job.Info(i).fks
  {
    job.items[j].table == job.Info(i).fks[c] && RawPk(job, j) == [Get(job.items[i].record, c)]
  }

  lemma {:induction false} KeysStayFit(job: Job, i: nat)
    requires Starts(job) && i <= |job.items|
    ensures KeysFit(job.sch, job.At(i).db)
  {
    if i > 0 {
      KeysStayFit(job, i - 1);
    }
  }

  lemma EntityKey(job: Job, i: nat)
    requires job.Fits() && i < |job.items| && IsEntity(job.Info(i))
    ensures Cells(job.Info(i).pk, job.Row(i)) == RawPk(job, i) && |RawPk(job, i)| == 1
  {
  }

  lemma NaturalIsEntity(job: Job, i: nat)
    requires job.Fits() && GoodSchema(job.sch) && i < |job.items| && job.Verdict(i).SkipNatural?
    ensures IsEntity(job.Info(i))
  {
    GoodInfo(job, i);
  }

  lemma RemapStep(job: Job, i: nat)
    requires job.Fits() && GoodSchema(job.sch) && i < |job.items|
    ensures if job.Verdict(i).SkipNatural?
            then IsEntity(job.Info(i)) && |RawPk(job, i)| == 1 && job.At(i + 1).remap == job.At(i).remap[RawPk(job, i)[0] := job.Verdict(i).local]
            else job.At(i + 1).remap == job.At(i).remap
  {
    if job.Verdict(i).SkipNatural? {
      NaturalIsEntity(job, i);
      EntityKey(job, i);
    }
  }

  lemma SameId(job: Job, i: nat, j: nat)
    requires job.Fits() && IdsUnique(job) && i < |job.items| && j < |job.items|
    requires IsEntity(job.Info(i)) && IsEntity(job.Info(j)) && RawPk(job, i) == RawPk(job, j)
    ensures i == j
  {
  }

  ghost predicate Made(job: Job, i: nat, v: Cell, local: Cell)
    requires job.Fits() && i < |job.items|
  {
    IsEntity(job.Info(i)) && RawPk(job, i) == [v] && job.Verdict(i) == SkipNatural(local)
  }

  ghost predicate Remaps(job: Job, i: nat, v: Cell, local: Cell)
    requires job.Fits() && i <= |job.items|
  {
    v in job.At(i).remap && job.At(i).remap[v] == local
  }

  lemma RemapStepBack(job: Job, i: nat, v: Cell, local: Cell)
    requires job.Fits() && GoodSchema(job.sch) && i < |job.items| && Remaps(job, i + 1, v, local)
    ensures Made(job, i, v, local) || Remaps(job, i, v, local)
  {
    RemapStep(job, i);
    if job.Verdict(i).SkipNatural? && RawPk(job, i)[0] == v {
      assert RawPk(job, i) == [v];
    }
  }

  /** Every remap entry was made by the one record whose id it rewrites. */
  lemma RemapOrigin(job: Job, i: nat, v: Cell) returns (j: nat)
    requires job.Fits() && GoodSchema(job.sch) && job.start.remap == map[] && i <= |job.items| && v in job.At(i).remap
    ensures j < i && IsEntity(job.Info(j)) && RawPk(job, j) == [v] && job.Verdict(j) == SkipNatural(job.At(i).remap[v])
  {
    var local := job.At(i).remap[v];
    j := i;
    while j > 0
      invariant j <= i && Remaps(job, j, v, local)
    {
      j := j - 1;
      RemapStepBack(job, j, v, local);
      if Made(job, j, v, local) {
        return;
      }
    }
  }

  lemma RemapMade(job: Job, j: nat, v: Cell, local: Cell)
    requires job.Fits() && GoodSchema(job.sch) && j < |job.items| && Made(job, j, v, local)
    ensures Remaps(job, j + 1, v, local)
  {
    RemapStep(job, j);
  }

  lemma OtherIdKept(job: Job, j: nat, i: nat, v: Cell, local: Cell)
    requires job.Fits() && GoodSchema(job.sch) && IdsUnique(job) && j < i < |job.items|
    requires Made(job, j, v, local) && Remaps(job, i, v, local)
    ensures Remaps(job, i + 1, v, local)
  {
    RemapStep(job, i);
    if job.Verdict(i).SkipNatural? {
      assert RawPk(job, i) != RawPk(job, j);
    }
  }

  /** Once made, a remap entry stays. */
  lemma RemapKept(job: Job, j: nat, i: nat, v: Cell)
    requires Starts(job) && j < i <= |job.items|
    requires IsEntity(job.Info(j)) && RawPk(job, j) == [v] && job.Verdict(j).SkipNatural?
    ensures v in job.At(i).remap && job.At(i).remap[v] == job.Verdict(j).local
  {
    MadeStays(job, j, i, v, job.Verdict(j).local);
  }

  lemma MadeStays(job: Job, j: nat, i: nat, v: Cell, local: Cell)
    requires job.Fits() && GoodSchema(job.sch) && IdsUnique(job) && j < i <= |job.items| && Made(job, j, v, local)
    ensures Remaps(job, i, v, local)
  {
    RemapMade(job, j, v, local);
    var k := j + 1;
    while k < i
      invariant j < k <= i && Remaps(job, k, v, local)
    {
      OtherIdKept(job, j, k, v, local);
      k := k + 1;
    }
  }

  lemma NotRemapped(job: Job, j: nat, i: nat, v: Cell)
    requires Starts(job) && j < |job.items| && i <= |job.items|
    requires IsEntity(job.Info(j)) && RawPk(job, j) == [v] && !job.Verdict(j).SkipNatural?
    ensures v !in job.At(i).remap
  {
    if v in job.At(i).remap {
      var origin := RemapOrigin(job, i, v);
      SameId(job, origin, j);
    }
  }

  lemma FoundOrInserted(job: Job, j: nat)
    requires job.Fits() && j < |job.items| && (job.Verdict(j) == SkipSame || job.Verdict(j) == Insert)
    ensures job.RowKey(j) in job.At(j + 1).db && (job.Verdict(j) == Insert ==> job.At(j + 1).db[job.RowKey(j)] == job.Row(j))
  {
  }

  lemma NaturalMatch(job: Job, j: nat)
    requires job.Fits() && j < |job.items| && IsEntity(job.Info(j)) && KeysFit(job.sch, job.At(j).db) && job.Verdict(j).SkipNatural?
    ensures Key(job.items[j].table, [job.Verdict(j).local]) in job.At(j).db
  {
    var c := job.Info(j).natural.value;
    var k := FirstMatch(job.At(j).db, job.items[j].table, c, Get(job.Row(j), c));
    assert k == Key(k.table, [PkHead(k)]);
  }

  lemma RowStays(job: Job, j: nat, i: nat)
    requires job.Fits() && j < i <= |job.items| && (job.Verdict(j) == SkipSame || job.Verdict(j) == Insert)
    ensures job.RowKey(j) in job.At(i).db && (job.Verdict(j) == Insert ==> job.At(i).db[job.RowKey(j)] == job.Row(j))
  {
    FoundOrInserted(job, j);
    DbOnlyGrows(job, j + 1, i);
  }

  lemma MatchedPresent(job: Job, j: nat, i: nat, v: Cell)
    requires Starts(job) && j < i <= |job.items|
    requires IsEntity(job.Info(j)) && RawPk(job, j) == [v] && job.Verdict(j).SkipNatural?
    ensures Key(job.items[j].table, [Phi(job.At(i).remap, v)]) in job.At(i).db
  {
    RemapKept(job, j, i, v);
    KeysStayFit(job, j);
    NaturalMatch(job, j);
    DbOnlyGrows(job, j, i);
  }

  lemma OwnRowPresent(job: Job, j: nat, i: nat, v: Cell)
    requires Starts(job) && j < i <= |job.items|
    requires IsEntity(job.Info(j)) && RawPk(job, j) == [v] && (job.Verdict(j) == SkipSame || job.Verdict(j) == Insert)
    ensures Key(job.items[j].table, [Phi(job.At(i).remap, v)]) in job.At(i).db
  {
    EntityKey(job, j);
    RowStays(job, j, i);
    NotRemapped(job, j, i, v);
  }

  /** The local row a record was found as, inserted as or matched with is there, under its mapped id. */
  lemma EntityPresent(job: Job, j: nat, i: nat, v: Cell)
    requires Starts(job) && j < i <= |job.items|
    requires IsEntity(job.Info(j)) && RawPk(job, j) == [v] && job.Verdict(j) != Fail
    ensures Key(job.items[j].table, [Phi(job.At(i).remap, v)]) in job.At(i).db
  {
    if job.Verdict(j).SkipNatural? {
      MatchedPresent(job, j, i, v);
    } else {
      OwnRowPresent(job, j, i, v);
    }
  }

  /** A reference points backwards, so its rewriting is settled when the record is read. */
  lemma ReferenceAt(job: Job, i: nat, c: Col, k: nat)
    requires Starts(job) && Closed(job) && i < |job.items| && c in job.Info(i).fks && i <= k <= |job.items|
    ensures var v := Get(job.items[i].record, c); Phi(job.At(k).remap, v) == Phi(job.At(i).remap, v)
  {
    var v := Get(job.items[i].record, c);
    GoodInfo(job, i);
    if v in job.At(k).remap {
      var j := RemapOrigin(job, k, v);
      if v != Null {
        var r :| 0 <= r < |job.items| && Refers(job, i, c, r);
        assert r == j && job.items[j].table < job.items[i].table;
      }
      RemapKept(job, j, i, v);
    } else if v in job.At(i).remap {
      var j := RemapOrigin(job, i, v);
      RemapKept(job, j, k, v);
    }
  }

  lemma ReferenceSettled(job: Job, i: nat, c: Col)
    requires Starts(job) && Closed(job) && i < |job.items| && c in job.Info(i).fks
    ensures var v := Get(job.items[i].record, c);
            forall k :: i <= k <= |job.items| ==> Phi(job.At(k).remap, v) == Phi(job.At(i).remap, v)
  {
    forall k | i <= k <= |job.items|
      ensures Phi(job.At(k).remap, Get(job.items[i].record, c)) == Phi(job.At(i).remap, Get(job.items[i].record, c))
    {
      ReferenceAt(job, i, c, k);
    }
  }

  /** What a reference of record `i` is rewritten to is there, as soon as the record it refers to is. */
  lemma ReferencePresent(job: Job, i: nat, c: Col, k: nat)
    requires Starts(job) && Closed(job) && i <= k <= |job.items| && i < |job.items|
    requires c in job.Info(i).fks && Get(job.items[i].record, c) != Null
    requires forall j :: 0 <= j < i ==> job.Verdict(j) != Fail
    ensures Key(job.Info(i).fks[c], [Phi(job.At(k).remap, Get(job.items[i].record, c))]) in job.At(k).db
  {
    var r :| 0 <= r < |job.items| && Refers(job, i, c, r);
    GoodInfo(job, i);
    assert job.items[r].table < job.items[i].table;
    EntityPresent(job, r, k, Get(job.items[i].record, c));
  }

  lemma NullStaysNull(job: Job, i: nat)
    requires Starts(job) && i <= |job.items|
    ensures Null !in job.At(i).remap
  {
    if Null in job.At(i).remap {
      var j := RemapOrigin(job, i, Null);
    }
  }

  /** With a closed export and no row failed so far, the next row's foreign keys resolve. */
  lemma NoDanglingKey(job: Job, i: nat)
    requires Starts(job) && Closed(job) && i < |job.items|
    requires forall j :: 0 <= j < i ==> job.Verdict(j) != Fail
    ensures FksResolve(job.At(i).db, job.Info(i), job.Row(i))
  {
    NullStaysNull(job, i);
    forall c | c in job.Info(i).fks && Get(job.Row(i), c) != Null
      ensures Key(job.Info(i).fks[c], [Get(job.Row(i), c)]) in job.At(i).db
    {
      ReferencePresent(job, i, c, i);
    }
  }

  /** So a failure is never a dangling reference: it is a missing key column, a duplicate or the row itself. */
  lemma FailureCause(job: Job, i: nat)
    requires Starts(job) && Closed(job) && i < |job.items| && job.Verdict(i) == Fail
    requires forall j :: 0 <= j < i ==> job.Verdict(j) != Fail
    ensures !HasAll(job.Info(i).pk, job.Row(i)) || !NoDuplicate(job.At(i).db, job.items[i].table, job.Info(i), job.Row(i)) ||
            !job.valid(job.items[i].table, job.Row(i))
  {
    NoDanglingKey(job, i);
  }

  // ---------------------------------------------------------------------------
  // The import is a homomorphism
  // ---------------------------------------------------------------------------

  ghost function MapCells(remap: map<Cell, Cell>, cells: seq<Cell>): seq<Cell> {
    seq(|cells|, i requires 0 <= i < |cells| => Phi(remap, cells[i]))
  }

  lemma RowSettled(job: Job, i: nat)
    requires Starts(job) && Closed(job) && i < |job.items|
    ensures job.Row(i) == Mapped(job.Info(i).fks, job.At(|job.items|).remap, job.items[i].record)
  {
    forall c | c in job.items[i].record && c in job.Info(i).fks
      ensures Phi(job.At(|job.items|).remap, job.items[i].record[c]) == Phi(job.At(i).remap, job.items[i].record[c])
    {
      ReferenceSettled(job, i, c);
    }
  }

  lemma LinkKey(job: Job, i: nat)
    requires Starts(job) && Closed(job) && i < |job.items| && IsLink(job.Info(i)) && HasAll(job.Info(i).pk, job.Row(i))
    ensures job.RowKey(i) == Key(job.items[i].table, MapCells(job.At(|job.items|).remap, RawPk(job, i)))
  {
    RowSettled(job, i);
  }

  lemma EntityImage(job: Job, i: nat)
    requires Starts(job) && i < |job.items| && IsEntity(job.Info(i)) && job.Verdict(i) != Fail
    ensures var key := Key(job.items[i].table, MapCells(job.At(|job.items|).remap, RawPk(job, i)));
            key in job.At(|job.items|).db && (job.Verdict(i) == Insert ==> key == job.RowKey(i))
  {
    var n, v := |job.items|, RawPk(job, i)[0];
    EntityKey(job, i);
    assert RawPk(job, i) == [v] && MapCells(job.At(n).remap, [v]) == [Phi(job.At(n).remap, v)];
    EntityPresent(job, i, n, v);
    if job.Verdict(i) == Insert {
      NotRemapped(job, i, n, v);
    }
  }

  lemma LinkImage(job: Job, i: nat)
    requires Starts(job) && Closed(job) && i < |job.items| && IsLink(job.Info(i)) && job.Verdict(i) != Fail
    ensures var key := Key(job.items[i].table, MapCells(job.At(|job.items|).remap, RawPk(job, i)));
            key in job.At(|job.items|).db && key == job.RowKey(i)
  {
    LinkKey(job, i);
    RowStays(job, i, |job.items|);
  }

  lemma InsertedImage(job: Job, i: nat)
    requires Starts(job) && Closed(job) && i < |job.items| && job.Verdict(i) == Insert
    ensures var end := job.At(|job.items|);
            job.RowKey(i) in end.db && end.db[job.RowKey(i)] == Mapped(job.Info(i).fks, end.remap, job.items[i].record)
  {
    RowSettled(job, i);
    RowStays(job, i, |job.items|);
  }

  lemma RowImage(job: Job, i: nat)
    requires Starts(job) && Closed(job) && i < |job.items| && job.Verdict(i) != Fail
    ensures var key := Key(job.items[i].table, MapCells(job.At(|job.items|).remap, RawPk(job, i)));
            key in job.At(|job.items|).db && (job.Verdict(i) == Insert ==> key == job.RowKey(i))
  {
    GoodInfo(job, i);
    if IsEntity(job.Info(i)) {
      EntityImage(job, i);
    } else {
      LinkImage(job, i);
    }
  }

  /**
   * A closed export imported without errors: every exported row or link has its image under phi
   * in the local database, an inserted row is the exported one with its references mapped by phi,
   * and the images of all references are there.
   */
  lemma Homomorphism(job: Job, i: nat)
    requires Starts(job) && Closed(job) && i < |job.items|
    requires forall j :: 0 <= j < |job.items| ==> job.Verdict(j) != Fail
    ensures var end, it := job.At(|job.items|), job.items[i];
            var key := Key(it.table, MapCells(end.remap, RawPk(job, i)));
            && key in end.db
            && (job.Verdict(i) == Insert ==> end.db[key] == Mapped(job.Info(i).fks, end.remap, it.record))
            && (forall c :: c in job.Info(i).fks && Get(it.record, c) != Null ==>
                  Key(job.Info(i).fks[c], [Phi(end.remap, Get(it.record, c))]) in end.db)
  {
    RowImage(job, i);
    if job.Verdict(i) == Insert {
      InsertedImage(job, i);
    }
    forall c | c in job.Info(i).fks && Get(job.items[i].record, c) != Null
      ensures Key(job.Info(i).fks[c], [Phi(job.At(|job.items|).remap, Get(job.items[i].record, c))]) in job.At(|job.items|).db
    {
      ReferencePresent(job, i, c, |job.items|);
    }
  }

  // ---------------------------------------------------------------------------
  // Importing twice
  // ---------------------------------------------------------------------------

  function Fresh(db: Db, tables: nat): Import {
    Import(db, map[], seq(tables, _ => 0), seq(tables, _ => 0), [])
  }

  /** The same export imported into what the first import left. */
  ghost function Rerun(job: Job): Job
    requires job.Fits()
  {
    job.(start := Fresh(job.At(|job.items|).db, |job.sch|))
  }

  ghost predicate SameNatural(sch: Schema, db: Db, a: Key, b: Key) {
    && a in db && b in db && a.table == b.table < |sch| && sch[a.table].natural.Some?
    && SameOn([sch[a.table].natural.value], db[a], db[b])
  }

  /** Natural keys name one local row each. */
  ghost predicate NaturalsUnique(sch: Schema, db: Db) {
    forall a, b {:trigger SameNatural(sch, db, a, b)} :: SameNatural(sch, db, a, b) ==> a == b
  }

  /** Within the export natural keys are unique, and link records hold nothing but their key. */
  ghost predicate KeysUnique(job: Job)
    requires job.Fits()
  {
    && (forall i, j ::
          (0 <= i < |job.items| && 0 <= j < |job.items| && i != j && job.items[i].table == job.items[j].table && job.Info(i).natural.Some?)
          ==> !SameOn([job.Info(i).natural.value], job.items[i].record, job.items[j].record))
    && (forall i, c :: 0 <= i < |job.items| && IsLink(job.Info(i)) && c in job.items[i].record ==> c in job.Info(i).pk)
  }

  ghost function Again(v: Outcome): Outcome {
    if v == Insert then SkipSame else v
  }

  ghost predicate Holds(job: Job, i: nat, key: Key, row: Record)
    requires job.Fits() && i <= |job.items|
  {
    key in job.At(i).db && job.At(i).db[key] == row
  }

  ghost predicate Inserted(job: Job, i: nat, key: Key, row: Record)
    requires job.Fits() && i < |job.items|
  {
    job.Verdict(i) == Insert && job.RowKey(i) == key && job.Row(i) == row && key !in job.At(i).db
  }

  lemma DbStepBack(job: Job, i: nat, key: Key, row: Record)
    requires job.Fits() && i < |job.items| && Holds(job, i + 1, key, row)
    ensures Inserted(job, i, key, row) || Holds(job, i, key, row)
  {
  }

  /** A row that appears between two moments was inserted between them. */
  lemma InsertedBetween(job: Job, i: nat, k: nat, key: Key) returns (j: nat)
    requires job.Fits() && i <= k <= |job.items| && key in job.At(k).db && key !in job.At(i).db
    ensures i <= j < k && Inserted(job, j, key, job.At(k).db[key])
  {
    var row := job.At(k).db[key];
    j := k;
    while j > i
      invariant i <= j <= k && Holds(job, j, key, row)
    {
      j := j - 1;
      DbStepBack(job, j, key, row);
      if Inserted(job, j, key, row) {
        return;
      }
    }
  }

  ghost predicate UniqueAt(job: Job, i: nat)
    requires job.Fits() && i <= |job.items|
  {
    NaturalsUnique(job.sch, job.At(i).db)
  }

  lemma NaturalsStayUnique(job: Job, i: nat)
    requires job.Fits() && GoodSchema(job.sch) && NaturalsUnique(job.sch, job.start.db) && i <= |job.items|
    ensures NaturalsUnique(job.sch, job.At(i).db)
  {
    UniqueFirst(job);
    var k := 0;
    while k < i
      invariant k <= i && UniqueAt(job, k)
    {
      UniqueNext(job, k);
      k := k + 1;
    }
  }

  lemma UniqueFirst(job: Job)
    requires job.Fits() && NaturalsUnique(job.sch, job.start.db)
    ensures UniqueAt(job, 0)
  {
  }

  lemma UniqueNext(job: Job, i: nat)
    requires job.Fits() && GoodSchema(job.sch) && i < |job.items| && UniqueAt(job, i)
    ensures UniqueAt(job, i + 1)
  {
    UniqueStep(job, i);
  }

  lemma UniqueStep(job: Job, i: nat)
    requires job.Fits() && GoodSchema(job.sch) && i < |job.items| && NaturalsUnique(job.sch, job.At(i).db)
    ensures NaturalsUnique(job.sch, job.At(i + 1).db)
  {
    if job.Verdict(i) == Insert {
      InsertUnique(job, i);
    }
  }

  lemma InsertUnique(job: Job, i: nat)
    requires job.Fits() && GoodSchema(job.sch) && i < |job.items| && NaturalsUnique(job.sch, job.At(i).db) && job.Verdict(i) == Insert
    ensures NaturalsUnique(job.sch, job.At(i).db[job.RowKey(i) := job.Row(i)])
  {
    var db, key := job.At(i).db, job.RowKey(i);
    var after := db[key := job.Row(i)];
    forall a, b | SameNatural(job.sch, after, a, b) ensures a == b {
      if a == key || b == key {
        if a != b {
          NewNatural(job, i, if a == key then b else a);
        }
      } else {
        assert SameNatural(job.sch, db, a, b);
      }
    }
  }

  /** An accepted row shares its natural key with no other row of its table. */
  lemma NewNatural(job: Job, i: nat, k: Key)
    requires job.Fits() && GoodSchema(job.sch) && i < |job.items| && job.Verdict(i) == Insert && job.Info(i).natural.Some?
    requires k in job.At(i).db && k.table == job.items[i].table
    ensures !SameOn([job.Info(i).natural.value], job.At(i).db[k], job.Row(i))
    ensures !SameOn([job.Info(i).natural.value], job.Row(i), job.At(i).db[k])
  {
    var info := job.Info(i);
    GoodInfo(job, i);
    var u :| 0 <= u < |info.uniques| && info.uniques[u] == [info.natural.value];
    assert !SameOn(info.uniques[u], job.At(i).db[k], job.Row(i));
    SameOnFlips(info.natural.value, job.At(i).db[k], job.Row(i));
  }

  lemma SameOnFlips(c: Col, a: Record, b: Record)
    ensures SameOn([c], a, b) <==> SameOn([c], b, a)
  {
    assert [c][0] == c;
  }

  /** A record that was matched or failed is not in the table under its own id later either. */
  lemma EntityStaysOut(job: Job, i: nat)
    requires Starts(job) && i < |job.items| && IsEntity(job.Info(i)) && job.RowKey(i) !in job.At(i).db && job.Verdict(i) != Insert
    ensures job.RowKey(i) !in job.At(|job.items|).db
  {
    if job.RowKey(i) in job.At(|job.items|).db {
      var j := InsertedBetween(job, i, |job.items|, job.RowKey(i));
      EntityKey(job, i);
      EntityKey(job, j);
      SameId(job, i, j);
    }
  }

  /** Nothing is inserted any more into the tables a record refers to. */
  lemma ReferencedTablesDone(job: Job, i: nat, k: nat, key: Key)
    requires job.Fits() && InOrder(job.items) && i < |job.items| && i <= k <= |job.items| && key.table < job.items[i].table
    ensures key in job.At(k).db ==> key in job.At(i).db
  {
    if key in job.At(k).db && key !in job.At(i).db {
      var j := InsertedBetween(job, i, k, key);
      assert false;
    }
  }

  lemma FksFrozen(job: Job, i: nat, k: nat, r: Record)
    requires Starts(job) && i < |job.items| && i <= k <= |job.items|
    ensures FksResolve(job.At(k).db, job.Info(i), r) ==> FksResolve(job.At(i).db, job.Info(i), r)
  {
    GoodInfo(job, i);
    forall c | c in job.Info(i).fks {
      ReferencedTablesDone(job, i, k, Key(job.Info(i).fks[c], [Get(r, c)]));
    }
  }

  lemma SameCells(pk: seq<Col>, a: Record, b: Record)
    requires HasAll(pk, a) && HasAll(pk, b) && Cells(pk, a) == Cells(pk, b)
    requires forall c :: c in a || c in b ==> c in pk
    ensures a == b
  {
    forall m | 0 <= m < |pk| ensures pk[m] in a && pk[m] in b && a[pk[m]] == b[pk[m]] {
      assert Cells(pk, a)[m] == Cells(pk, b)[m];
    }
  }

  lemma LinkCells(job: Job, i: nat, c: Col)
    requires job.Fits() && KeysUnique(job) && i < |job.items| && IsLink(job.Info(i)) && c in job.Row(i)
    ensures c in job.Info(i).pk
  {
    assert c in job.items[i].record;
  }

  lemma LinkRowsEqual(job: Job, i: nat, j: nat)
    requires job.Fits() && KeysUnique(job) && i < |job.items| && j < |job.items|
    requires IsLink(job.Info(i)) && job.RowKey(i) == job.RowKey(j)
    requires HasAll(job.Info(i).pk, job.Row(i)) && HasAll(job.Info(j).pk, job.Row(j))
    ensures job.Row(i) == job.Row(j)
  {
    forall c | c in job.Row(i) || c in job.Row(j) ensures c in job.Info(i).pk {
      if c in job.Row(i) {
        LinkCells(job, i, c);
      } else {
        LinkCells(job, j, c);
      }
    }
    SameCells(job.Info(i).pk, job.Row(i), job.Row(j));
  }

  lemma LinkStaysOut(job: Job, i: nat)
    requires Starts(job) && KeysUnique(job) && i < |job.items| && IsLink(job.Info(i)) && job.Verdict(i) == Fail
    requires HasAll(job.Info(i).pk, job.Row(i))
    ensures job.RowKey(i) !in job.At(|job.items|).db
  {
    if job.RowKey(i) in job.At(|job.items|).db {
      var j := InsertedBetween(job, i, |job.items|, job.RowKey(i));
      LinkRowsEqual(job, i, j);
      FksFrozen(job, i, j, job.Row(i));
    }
  }

  /** A refused row stays refused: references and duplicates are as they were. */
  lemma StaysRefused(job: Job, i: nat)
    requires Starts(job) && i < |job.items|
    ensures Accepts(job.At(|job.items|).db, job.items[i].table, job.Info(i), job.valid, job.Row(i)) ==>
            Accepts(job.At(i).db, job.items[i].table, job.Info(i), job.valid, job.Row(i))
  {
    FksFrozen(job, i, |job.items|, job.Row(i));
    DbOnlyGrows(job, i, |job.items|);
  }

  /** A natural key without a local match at its turn has none at the end, unless the record itself was inserted. */
  lemma NoLateMatch(job: Job, i: nat)
    requires Starts(job) && KeysUnique(job) && i < |job.items| && job.Info(i).natural.Some? && job.Verdict(i) != Insert
    requires Get(job.Row(i), job.Info(i).natural.value) != Null
    ensures var c := job.Info(i).natural.value;
            HasMatch(job.At(|job.items|).db, job.items[i].table, c, Get(job.Row(i), c)) ==>
            HasMatch(job.At(i).db, job.items[i].table, c, Get(job.Row(i), c))
  {
    var c, n := job.Info(i).natural.value, |job.items|;
    GoodInfo(job, i);
    if k :| k in job.At(n).db && Matches(job.At(n).db, k, job.items[i].table, c, Get(job.Row(i), c)) {
      DbOnlyGrows(job, i, n);
      if k in job.At(i).db {
        assert Matches(job.At(i).db, k, job.items[i].table, c, Get(job.Row(i), c));
      } else {
        var j := InsertedBetween(job, i, n, k);
        assert SameOn([c], job.items[i].record, job.items[j].record);
      }
    }
  }

  /** The match found first is the match found at the end. */
  lemma SameMatch(job: Job, i: nat)
    requires Starts(job) && NaturalsUnique(job.sch, job.start.db) && i < |job.items| && job.Verdict(i).SkipNatural?
    ensures var c, n := job.Info(i).natural.value, |job.items|;
            && HasMatch(job.At(n).db, job.items[i].table, c, Get(job.Row(i), c))
            && PkHead(FirstMatch(job.At(n).db, job.items[i].table, c, Get(job.Row(i), c))) == job.Verdict(i).local
  {
    var c, t, n := job.Info(i).natural.value, job.items[i].table, |job.items|;
    var v := Get(job.Row(i), c);
    DbOnlyGrows(job, i, n);
    NaturalsStayUnique(job, n);
    var a := FirstMatch(job.At(i).db, t, c, v);
    assert Matches(job.At(n).db, a, t, c, v);
    var b := FirstMatch(job.At(n).db, t, c, v);
    assert SameNatural(job.sch, job.At(n).db, a, b);
  }

  /** The verdict on a record the second time: what was inserted is found, the rest is as before. */
  lemma SecondVerdict(job: Job, i: nat)
    requires Starts(job) && KeysUnique(job) && NaturalsUnique(job.sch, job.start.db) && i < |job.items|
    ensures Judge(job.Info(i), job.valid, job.At(|job.items|).db, job.At(i).remap, job.items[i]) == Again(job.Verdict(i))
  {
    match job.Verdict(i) {
      case SkipSame => RowStays(job, i, |job.items|);
      case Insert => RowStays(job, i, |job.items|);
      case SkipNatural(_) =>
        NaturalIsEntity(job, i);
        EntityStaysOut(job, i);
        SameMatch(job, i);
      case Fail => FailsAgain(job, i);
    }
  }

  lemma FailsAgain(job: Job, i: nat)
    requires Starts(job) && KeysUnique(job) && i < |job.items| && job.Verdict(i) == Fail
    ensures Judge(job.Info(i), job.valid, job.At(|job.items|).db, job.At(i).remap, job.items[i]) == Fail
  {
    GoodInfo(job, i);
    if HasAll(job.Info(i).pk, job.Row(i)) {
      if IsEntity(job.Info(i)) {
        EntityStaysOut(job, i);
      } else {
        LinkStaysOut(job, i);
      }
      if job.Info(i).natural.Some? && Get(job.Row(i), job.Info(i).natural.value) != Null {
        NoLateMatch(job, i);
      }
      StaysRefused(job, i);
    }
  }

  ghost predicate SameButCounts(again: Import, first: Import, db: Db, tables: nat) {
    && again.db == db && again.remap == first.remap && again.errors == first.errors
    && again.imported == seq(tables, _ => 0)
  }

  lemma SecondStep(info: TableInfo, again: Import, first: Import, db: Db, tables: nat, it: Item, v: Outcome)
    requires SameButCounts(again, first, db, tables)
    ensures SameButCounts(Apply(info, again, it, Again(v)), Apply(info, first, it, v), db, tables)
  {
  }

  /**
   * Importing the same export twice: the second import rebuilds the same remap, inserts nothing,
   * leaves the database as it is, reports the same failing rows, and decides each record as the
   * first did, a row inserted then being found now.
   */
  lemma {:induction false} Idempotent(job: Job, i: nat)
    requires Starts(job) && KeysUnique(job) && NaturalsUnique(job.sch, job.start.db) && i <= |job.items|
    requires job.start == Fresh(job.start.db, |job.sch|)
    ensures Rerun(job).Fits()
    ensures SameButCounts(Rerun(job).At(i), job.At(i), job.At(|job.items|).db, |job.sch|)
    ensures i < |job.items| ==> Rerun(job).Verdict(i) == Again(job.Verdict(i))
  {
    var again := Rerun(job);
    if i > 0 {
      Idempotent(job, i - 1);
      SecondStep(job.Info(i - 1), again.At(i - 1), job.At(i - 1), job.At(|job.items|).db, |job.sch|, job.items[i - 1], job.Verdict(i - 1));
    }
    if i < |job.items| {
      SecondVerdict(job, i);
    }
  }

  // ---------------------------------------------------------------------------
  // The import loop
  // ---------------------------------------------------------------------------

  const SCHEMA_VERSION := 1

  function TableItems(t: nat, records: seq<Record>): seq<Item> {
    seq(|records|, j requires 0 <= j < |records| => Item(t, records[j]))
  }

  /** The records of an export in the order the two loops read them. */
  function Flatten(tables: seq<seq<Record>>): seq<Item> {
    if tables == [] then [] else Flatten(tables[..|tables| - 1]) + TableItems(|tables| - 1, tables[|tables| - 1])
  }

  lemma {:induction false} FlattenTables(tables: seq<seq<Record>>, i: nat)
    requires i < |Flatten(tables)|
    ensures Flatten(tables)[i].table < |tables|
  {
    var init := tables[..|tables| - 1];
    if i < |Flatten(init)| {
      FlattenTables(init, i);
    }
  }

  lemma {:induction false} FlattenInOrder(tables: seq<seq<Record>>)
    ensures InOrder(Flatten(tables))
  {
    if tables != [] {
      var init := tables[..|tables| - 1];
      FlattenInOrder(init);
      forall i | 0 <= i < |Flatten(init)| ensures Flatten(init)[i].table < |init| {
        FlattenTables(init, i);
      }
    }
  }

  lemma {:induction false} FlattenAt(tables: seq<seq<Record>>, t: nat)
    requires t < |tables|
    ensures Flatten(tables[..t + 1]) == Flatten(tables[..t]) + TableItems(t, tables[t])
    ensures |Flatten(tables[..t + 1])| <= |Flatten(tables)|
    ensures forall j :: 0 <= j < |tables[t]| ==> Flatten(tables)[|Flatten(tables[..t])| + j] == Item(t, tables[t][j])
    decreases |tables|
  {
    var last := |tables| - 1;
    assert tables[..t + 1][..t] == tables[..t];
    if t < last {
      FlattenAt(tables[..last], t);
      assert tables[..last][..t] == tables[..t] && tables[..last][..t + 1] == tables[..t + 1];
    } else {
      assert tables[..t + 1] == tables;
    }
  }

  ghost function JobOf(sch: Schema, valid: Valid, db: Db, tables: seq<seq<Record>>): Job {
    Job(sch, valid, Fresh(db, |sch|), Flatten(tables))
  }

  lemma JobFits(sch: Schema, valid: Valid, db: Db, tables: seq<seq<Record>>)
    requires |tables| == |sch|
    ensures JobOf(sch, valid, db, tables).Fits()
  {
    forall i | 0 <= i < |Flatten(tables)| ensures Flatten(tables)[i].table < |sch| {
      FlattenTables(tables, i);
    }
  }

  /** The records of table `t` start at position `from` of the export. */
  ghost predicate Spans(items: seq<Item>, from: nat, t: nat, records: seq<Record>) {
    && from + |records| <= |items|
    && forall j :: 0 <= j < |records| ==> items[from + j] == Item(t, records[j])
  }

  /** State `i + 1` of the import is what one record makes of state `i`. */
  ghost predicate StepsAt(job: Job, states: seq<Import>, i: nat)
    requires job.Fits() && i < |job.items| && |states| == |job.items| + 1
  {
    var it, info := job.items[i], job.sch[job.items[i].table];
    && NaturalsUnique(job.sch, states[i].db)
    && states[i + 1] == Apply(info, states[i], it, Judge(info, job.valid, states[i].db, states[i].remap, it))
  }

  /** `states` are the states of the import, in order. */
  ghost predicate Imports(job: Job, states: seq<Import>) {
    && job.Fits() && |states| == |job.items| + 1
    && forall i {:trigger StepsAt(job, states, i)} :: 0 <= i < |job.items| ==> StepsAt(job, states, i)
  }

  lemma TableSpan(items: seq<Item>, tables: seq<seq<Record>>, t: nat)
    requires t < |tables| && items == Flatten(tables)
    ensures |Flatten(tables[..t])| + |tables[t]| == |Flatten(tables[..t + 1])| <= |items|
    ensures Spans(items, |Flatten(tables[..t])|, t, tables[t])
  {
    FlattenAt(tables, t);
  }

  lemma AtStep(job: Job, i: nat)
    requires job.Fits() && i < |job.items|
    ensures job.At(i + 1) == Apply(job.Info(i), job.At(i), job.items[i], Judge(job.Info(i), job.valid, job.At(i).db, job.At(i).remap, job.items[i]))
  {
  }

  ghost function StatesOf(job: Job): (states: seq<Import>)
    requires job.Fits()
    ensures |states| == |job.items| + 1 && forall i :: 0 <= i <= |job.items| ==> states[i] == job.At(i)
  {
    seq(|job.items| + 1, i requires 0 <= i <= |job.items| => job.At(i))
  }

  lemma JobImports(sch: Schema, valid: Valid, db: Db, tables: seq<seq<Record>>)
    requires |tables| == |sch| && GoodSchema(sch) && NaturalsUnique(sch, db)
    ensures var job := JobOf(sch, valid, db, tables); job.Fits() && Imports(job, StatesOf(job))
  {
    JobFits(sch, valid, db, tables);
    var job := JobOf(sch, valid, db, tables);
    forall i | 0 <= i < |job.items| ensures StepsAt(job, StatesOf(job), i) {
      NaturalsStayUnique(job, i);
      AtStep(job, i);
    }
  }

  /** The local database; its unique columns are what the schema declares. */
  class LocalConfig {
    var db: Db

    /** `import_export`: nothing for an unknown schema version, otherwise the whole export, row by row. */
    method ImportExport(sch: Schema, valid: Valid, version: int, tables: seq<seq<Record>>) returns (report: Option<Import>)
      requires GoodSchema(sch) && |tables| == |sch| && NaturalsUnique(sch, db)
      modifies this
      ensures version != SCHEMA_VERSION ==> report == None && db == old(db)
      ensures version == SCHEMA_VERSION ==>
                && JobOf(sch, valid, old(db), tables).Fits()
                && report == Some(JobOf(sch, valid, old(db), tables).At(|Flatten(tables)|))
                && db == report.value.db
    {
      if version != SCHEMA_VERSION {
        return None;
      }
      ghost var job := JobOf(sch, valid, db, tables);
      JobImports(sch, valid, db, tables);
      var st := ImportTables(sch, valid, tables, job, StatesOf(job));
      return Some(st);
    }

    method ImportTables(sch: Schema, valid: Valid, tables: seq<seq<Record>>, ghost job: Job, ghost states: seq<Import>)
      returns (st: Import)
      requires Imports(job, states) && job.sch == sch && job.valid == valid && |tables| == |sch|
      requires job.items == Flatten(tables) && states[0] == Fresh(db, |sch|)
      modifies this
      ensures st == states[|job.items|] && db == st.db
    {
      st := Fresh(db, |sch|);
      var t := 0;
      while t < |sch|
        invariant 0 <= t <= |sch| && |Flatten(tables[..t])| <= |job.items|
        invariant st == states[|Flatten(tables[..t])|] && db == st.db
      {
        TableSpan(job.items, tables, t);
        st := ImportRecords(sch, valid, st, t, tables[t], job, states, |Flatten(tables[..t])|);
        db := st.db;
        t := t + 1;
      }
      assert tables[..t] == tables;
    }
  }

  method ImportNext(sch: Schema, valid: Valid, st0: Import, it: Item, ghost job: Job, ghost states: seq<Import>, ghost i: nat)
    returns (st: Import)
    requires Imports(job, states) && job.sch == sch && job.valid == valid
    requires i < |job.items| && job.items[i] == it && st0 == states[i]
    ensures st == states[i + 1]
  {
    assert StepsAt(job, states, i);
    st := ImportRecord(sch, valid, st0, it);
  }

  method ImportRecords(sch: Schema, valid: Valid, st0: Import, t: nat, records: seq<Record>,
                       ghost job: Job, ghost states: seq<Import>, ghost from: nat) returns (st: Import)
    requires Imports(job, states) && job.sch == sch && job.valid == valid
    requires Spans(job.items, from, t, records) && st0 == states[from]
    ensures st == states[from + |records|]
  {
    st := st0;
    var j := 0;
    while j < |records|
      invariant 0 <= j <= |records| && st == states[from + j]
    {
      st := ImportNext(sch, valid, st, Item(t, records[j]), job, states, from + j);
      j := j + 1;
    }
  }

  /** One record, its errors contained. */
  method ImportRecord(sch: Schema, valid: Valid, st0: Import, it: Item) returns (st: Import)
    requires it.table < |sch| && NaturalsUnique(sch, st0.db)
    ensures st == Apply(sch[it.table], st0, it, Judge(sch[it.table], valid, st0.db, st0.remap, it))
  {
    var info := sch[it.table];
    var record := Mapped(info.fks, st0.remap, it.record);
    st := st0;
    if !HasAll(info.pk, record) {
      st := st.(errors := st.errors + [it.table]);
      return;
    }
    var key := Key(it.table, Cells(info.pk, record));
    if key in st.db {
      st := st.(skipped := Bump(st.skipped, it.table));
      return;
    }
    if info.natural.Some? && Get(record, info.natural.value) != Null {
      var c := info.natural.value;
      if HasMatch(st.db, it.table, c, Get(record, c)) {
        var existing :| existing in st.db && Matches(st.db, existing, it.table, c, Get(record, c));
        assert SameNatural(sch, st.db, existing, FirstMatch(st.db, it.table, c, Get(record, c)));
        st := st.(remap := st.remap[PkHead(key) := PkHead(existing)], skipped := Bump(st.skipped, it.table));
        return;
      }
    }
    if Accepts(st.db, it.table, info, valid, record) {
      st := st.(db := st.db[key := record], imported := Bump(st.imported, it.table));
    } else {
      st := st.(errors := st.errors + [it.table]);
    }
  }

  // ---------------------------------------------------------------------------
  // The tables of the program
  // ---------------------------------------------------------------------------

  const MAIL_STORES: nat := 0
  const USERS: nat := 1
  const USER_ALLOWED_STORES: nat := 2
  const BACKUP_DESTINATIONS: nat := 3
  const USER_ALLOWED_REPOSITORIES: nat := 4
  const ACCOUNTS: nat := 5
  const ACCOUNT_OWNERS: nat := 6
  const GROUPS: nat := 7
  const GROUP_MEMBERS: nat := 8
  const ACCOUNT_GROUPS: nat := 9
  const ACCOUNT_BACKUPS: nat := 10
  const REPOSITORY_ATTACHMENTS: nat := 11

  function Link(a: Col, ta: nat, b: Col, tb: nat): TableInfo {
    TableInfo([a, b], map[a := ta, b := tb], None, [])
  }

  /** `_EXPORT_TABLES` with the metadata of the models and `_NATURAL_KEYS`. */
  function Table(t: nat): TableInfo {
    if t == MAIL_STORES then TableInfo([Id], map[], Some(Path), [[Path]])
    else if t == USERS then TableInfo([Id], map[StoreId := MAIL_STORES], Some(Username), [[Username], [OidcSubject]])
    else if t == USER_ALLOWED_STORES then Link(UserId, USERS, StoreId, MAIL_STORES)
    else if t == BACKUP_DESTINATIONS then TableInfo([Id], map[], None, [])
    else if t == USER_ALLOWED_REPOSITORIES then Link(UserId, USERS, RepositoryId, BACKUP_DESTINATIONS)
    else if t == ACCOUNTS then TableInfo([Id], map[StoreId := MAIL_STORES], Some(MaildirPath), [[MaildirPath]])
    else if t == ACCOUNT_OWNERS then Link(AccountId, ACCOUNTS, UserId, USERS)
    else if t == GROUPS then TableInfo([Id], map[OwnerId := USERS], None, [[Name]])
    else if t == GROUP_MEMBERS then Link(GroupId, GROUPS, UserId, USERS)
    else if t == ACCOUNT_GROUPS then Link(AccountId, ACCOUNTS, GroupId, GROUPS)
    else if t == ACCOUNT_BACKUPS then TableInfo([Id], map[AccountId := ACCOUNTS, DestinationId := BACKUP_DESTINATIONS], None, [])
    else TableInfo([Id], map[RepositoryId := BACKUP_DESTINATIONS, AccountId := ACCOUNTS], None, [[RepositoryId, Prefix]])
  }

  const TABLES: Schema := seq(12, t requires 0 <= t < 12 => Table(t))

  lemma EntityTables(t: nat)
    requires t in {MAIL_STORES, USERS, BACKUP_DESTINATIONS, ACCOUNTS, GROUPS, ACCOUNT_BACKUPS, REPOSITORY_ATTACHMENTS}
    ensures IsEntity(Table(t))
  {
  }

  lemma GoodLink(t: nat, a: Col, ta: nat, b: Col, tb: nat)
    requires t < 12 && a != b && Table(t) == Link(a, ta, b, tb) && ta < t && tb < t && IsEntity(Table(ta)) && IsEntity(Table(tb))
    ensures GoodTable(TABLES, t)
  {
  }

  lemma GoodEntity(t: nat)
    requires t in {MAIL_STORES, USERS, BACKUP_DESTINATIONS, ACCOUNTS, GROUPS, ACCOUNT_BACKUPS, REPOSITORY_ATTACHMENTS}
    ensures GoodTable(TABLES, t)
  {
    EntityTables(t);
    if Table(t).natural.Some? {
      assert Table(t).uniques[0] == [Table(t).natural.value];
    }
  }

  lemma LinkTables(t: nat)
    requires t in {USER_ALLOWED_STORES, USER_ALLOWED_REPOSITORIES, ACCOUNT_OWNERS, GROUP_MEMBERS, ACCOUNT_GROUPS}
    ensures GoodTable(TABLES, t)
  {
    if t == USER_ALLOWED_STORES {
      GoodLink(t, UserId, USERS, StoreId, MAIL_STORES);
    } else if t == USER_ALLOWED_REPOSITORIES {
      GoodLink(t, UserId, USERS, RepositoryId, BACKUP_DESTINATIONS);
    } else if t == ACCOUNT_OWNERS {
      GoodLink(t, AccountId, ACCOUNTS, UserId, USERS);
    } else if t == GROUP_MEMBERS {
      GoodLink(t, GroupId, GROUPS, UserId, USERS);
    } else {
      GoodLink(t, AccountId, ACCOUNTS, GroupId, GROUPS);
    }
  }

  lemma GoodTables(t: nat)
    requires t < 12
    ensures GoodTable(TABLES, t)
  {
    if t in {MAIL_STORES, USERS, BACKUP_DESTINATIONS, ACCOUNTS, GROUPS, ACCOUNT_BACKUPS, REPOSITORY_ATTACHMENTS} {
      GoodEntity(t);
    } else {
      LinkTables(t);
    }
  }

  /** The insert order of the export is topological, and its natural keys are usable. */
  lemma TablesAreGood()
    ensures GoodSchema(TABLES)
  {
    forall t | 0 <= t < 12 ensures GoodTable(TABLES, t) {
      GoodTables(t);
    }
  }
}
