/**
 * What each step of a migration changes: the files, the two rows, the flag that cancels it, and
 * the phase its row shows.
 */
module MigrationLaws {
  import opened CopyTree
  import opened Migration
  import opened Wrappers

  /** An administrator can cancel, the code can raise and the machine can go down whenever the worker works. */
  lemma FaultsAnytime(kind: Kind, s: State)
    requires s.record.Some? && !s.worker.NoWorker?
    ensures Enabled(kind, s, RequestCancel) && Enabled(kind, s, Raise) && Enabled(kind, s, Crash)
  {
  }

  /** A migration is recorded as one from where the pointer is to where it was asked to go. */
  lemma InitiateRecords(kind: Kind, s: State, target: Loc)
    requires Enabled(kind, s, Initiate(target))
    ensures var s' := Next(kind, s, Initiate(target));
            && s'.record.Some? && s'.record.value.source == s.pointer && s'.record.value.target == target
            && s'.record.value.status == Pending && s'.worker.NoWorker? && s'.disk == s.disk && target != s.pointer
  {
  }

  /** An attempt copies all there is at its source: where the pointer is now for an account, where it was for a home. */
  lemma BeginReads(kind: Kind, s: State)
    requires Enabled(kind, s, Begin)
    ensures var source := match kind case AccountMove => s.pointer case HomeMove => s.record.value.source;
            Next(kind, s, Begin).worker ==
            if source in s.disk then CopyingFiles(source, s.disk[source].Keys) else Checked(source)
  {
  }

  // ---------------------------------------------------------------------------
  // Files
  // ---------------------------------------------------------------------------

  /** A file appears only by being copied, from the source to the target. */
  lemma OnlyCopiesAdd(kind: Kind, s: State, e: Event, l: Loc, q: Path)
    requires Enabled(kind, s, e) && !e.LiveChange? && q !in Held(s, l)
    ensures q in Held(Next(kind, s, e), l) <==> s.record.Some? && e == CopyOne(q) && l == Target(s)
    ensures q in Held(Next(kind, s, e), l) ==> Held(Next(kind, s, e), l)[q] == Held(s, s.worker.source)[q]
  {
    match e {
      case CopyOne(_) =>
      case DeleteOne(_) =>
      case _ => FilesStay(kind, s, e, l);
    }
  }

  /** A file vanishes only by being deleted, from the source, and never changes. */
  lemma OnlyDeletesRemove(kind: Kind, s: State, e: Event, l: Loc, q: Path)
    requires Enabled(kind, s, e) && !e.LiveChange? && q in Held(s, l)
    ensures q !in Held(Next(kind, s, e), l) <==> e == DeleteOne(q) && l == s.worker.source
    ensures q in Held(Next(kind, s, e), l) ==> Held(Next(kind, s, e), l)[q] == Held(s, l)[q]
  {
    match e {
      case CopyOne(_) =>
      case DeleteOne(_) =>
      case _ => FilesStay(kind, s, e, l);
    }
  }

  lemma FilesStay(kind: Kind, s: State, e: Event, l: Loc)
    requires Enabled(kind, s, e) && !e.LiveChange? && !e.CopyOne? && !e.DeleteOne?
    ensures Held(Next(kind, s, e), l) == Held(s, l)
  {
    if e == Begin {
      BeginHeld(kind, s, l);
    } else if e == DeleteDir {
      assert forall m :: m in s.disk && m != s.worker.source ==> m in Next(kind, s, e).disk;
    } else {
      DiskStays(kind, s, e);
    }
  }

  lemma BeginHeld(kind: Kind, s: State, l: Loc)
    requires Enabled(kind, s, Begin)
    ensures Held(Next(kind, s, Begin), l) == Held(s, l)
  {
  }

  lemma DiskStays(kind: Kind, s: State, e: Event)
    requires Enabled(kind, s, e) && !e.LiveChange? && !e.Begin? && !e.CopyOne? && !e.DeleteOne? && !e.DeleteDir?
    ensures Next(kind, s, e).disk == s.disk
  {
    match e {
      case Initiate(_) =>
      case CopyDone =>
      case Switch =>
      case _ =>
    }
  }

  // ---------------------------------------------------------------------------
  // Rows
  // ---------------------------------------------------------------------------

  /** The pointer moves at the switch and at no other time. */
  lemma PointerMoves(kind: Kind, s: State, e: Event)
    requires Enabled(kind, s, e)
    ensures Next(kind, s, e).pointer == if e == Switch then Target(s) else s.pointer
  {
  }

  /** The mark is set at the start and taken off by completion or a cancel, not by a failure or a crash. */
  lemma MarkFollows(kind: Kind, s: State, e: Event)
    requires Enabled(kind, s, e)
    ensures Next(kind, s, e).migrating <==> e.Initiate? || (s.migrating && e != Complete && e != SeeCancel)
  {
  }

  /** A request sets the flag, and it is gone when the attempt ends, however it ends. */
  lemma FlagFollows(kind: Kind, s: State, e: Event)
    requires Enabled(kind, s, e)
    ensures e == RequestCancel ==> Next(kind, s, e).cancel
    ensures !s.worker.NoWorker? && Next(kind, s, e).worker.NoWorker? ==> !Next(kind, s, e).cancel
    ensures e != RequestCancel && (s.worker.NoWorker? || !Next(kind, s, e).worker.NoWorker?) && e != Crash ==>
              Next(kind, s, e).cancel == s.cancel
  {
  }

  /** What the row of the migration shows is the phase the worker is in. */
  predicate PhaseShown(s: State) {
    !s.worker.NoWorker? ==>
      && s.record.Some?
      && match s.worker
         case CopyingFiles(_, _) => s.record.value.status == Copying
         case CopiedAll(_) => s.record.value.status == Verifying
         case Checked(_) => s.record.value.status == Copying || s.record.value.status == Verifying
         case ToSwitch(_) => s.record.value.status == Cleaning
         case Deleting(_) => s.record.value.status == Cleaning
         case NoWorker => true
  }

  lemma StepShows(kind: Kind, s: State, e: Event)
    requires Enabled(kind, s, e) && PhaseShown(s)
    ensures PhaseShown(Next(kind, s, e))
  {
  }

  /** In every run the row shows the phase. */
  lemma {:induction false} RunShows(kind: Kind, s: State, es: seq<Event>)
    requires PhaseShown(s) && Can(kind, s, es)
    ensures PhaseShown(After(kind, s, es))
    decreases |es|
  {
    if es != [] {
      StepShows(kind, s, es[0]);
      RunShows(kind, Next(kind, s, es[0]), es[1..]);
    }
  }

  /** The steps that write the status. */
  predicate Writes(e: Event) {
    e.Begin? || e.CopyDone? || e.StartClean? || e.VerifyFail? || e.SeeCancel? || e.Raise? || e.Complete?
  }

  /** A migration keeps its two stores. */
  lemma StoresStay(kind: Kind, s: State, e: Event)
    requires Enabled(kind, s, e) && s.record.Some? && !e.Initiate?
    ensures var r, r' := s.record.value, Next(kind, s, e).record;
            r'.Some? && r'.value.source == r.source && r'.value.target == r.target && (!Writes(e) ==> r'.value.status == r.status)
  {
    match e {
      case Begin =>
      case CopyDone =>
      case Raise =>
      case _ =>
    }
  }

  /** It ends as completed by completion only, and as failed by a failed check, a cancel or an exception only. */
  lemma EndsAs(kind: Kind, s: State, e: Event)
    requires Enabled(kind, s, e) && s.record.Some? && Writes(e)
    ensures Next(kind, s, e).record.Some?
    ensures Next(kind, s, e).record.value.status == Completed <==> e.Complete?
    ensures Next(kind, s, e).record.value.status == Failed <==> e.VerifyFail? || e.SeeCancel? || e.Raise?
  {
    match e {
      case Begin =>
      case CopyDone =>
      case Raise =>
      case _ =>
    }
  }
}
