/**
 * `execute_account_migration` and `execute_home_migration` as one piece of code, run to its end
 * from any state in which an attempt can start: every step it takes is a step of the protocol.
 */
module MigrationWorker {
  import opened CopyTree
  import opened Migration
  import opened Wrappers

  /** What a copy with skip-existing makes of a target. */
  ghost predicate Merged(before: Contents, source: Contents, after: Contents) {
    && (forall p :: p in after <==> p in before || p in source)
    && (forall p :: p in after ==> after[p] == if p in before then before[p] else source[p])
  }

  /** What a part of such a copy makes of it. */
  ghost predicate PartlyMerged(before: Contents, source: Contents, after: Contents) {
    && (forall p :: p in before ==> p in after)
    && (forall p :: p in after ==> p in before || p in source)
    && (forall p :: p in after ==> after[p] == if p in before then before[p] else source[p])
  }

  /** The attempt failed: the mail stays where it was, still marked as migrating unless it was cancelled. */
  ghost predicate Halted(s0: State, s: State, source: Loc) {
    && s0.record.Some? && s.record.Some? && s.worker.NoWorker? && s.record.value.status == Failed
    && s.pointer == s0.pointer && s.migrating == (s0.migrating && !s0.cancel) && !s.cancel
    && Held(s, source) == Held(s0, source) && PartlyMerged(Held(s0, Target(s0)), Held(s0, source), Held(s, Target(s0)))
  }

  /** The attempt completed: the row names the target, which holds both, and the source is gone. */
  ghost predicate Moved(s0: State, s: State, source: Loc) {
    && s0.record.Some? && s.record.Some? && s.worker.NoWorker? && s.record.value.status == Completed
    && s.pointer == Target(s0) && !s.migrating && !s.cancel && source !in s.disk
    && (source != Target(s0) ==> Merged(Held(s0, Target(s0)), Held(s0, source), Held(s, Target(s0))))
  }

  /** Nothing cancels the attempt, and the target holds no file that the source, if it is there, does not have. */
  predicate Completes(s: State, source: Loc)
    requires s.record.Some?
  {
    !s.cancel && (source in s.disk ==> Held(s, Target(s)).Keys <= Held(s, source).Keys)
  }

  class Migrator {
    const kind: Kind
    var s: State
    ghost var begun: State
    ghost var trace: seq<Event>

    constructor (kind: Kind, s: State)
      ensures this.kind == kind && this.s == s && Traced() && trace == []
    {
      this.kind, this.s, begun, trace := kind, s, s, [];
    }

    /** The worker got where it is by steps of the protocol. */
    ghost predicate Traced()
      reads this
    {
      Can(kind, begun, trace) && s == After(kind, begun, trace)
    }

    /** One committed write, or one file. */
    method Do(e: Event)
      requires Traced() && Enabled(kind, s, e)
      modifies this
      ensures Traced() && begun == old(begun) && s == Next(kind, old(s), e)
    {
      One(kind, s, e);
      RunThen(kind, begun, trace, [e]);
      s := Next(kind, s, e);
      trace := trace + [e];
    }

    /**
     * `copy_tree` over the files of the source, in whatever order `scandir` gives them; the
     * callback after a file raises if the attempt is cancelled.
     */
    method CopyAll() returns (ok: bool)
      requires Traced() && s.worker.CopyingFiles? && s.record.Some?
      requires s.worker.todo == Held(s, s.worker.source).Keys
      modifies this
      ensures Traced() && begun == old(begun)
      ensures ok <==> !old(s.cancel) || old(s.worker.todo) == {}
      ensures if ok then
                && s.worker == CopyingFiles(old(s.worker.source), {}) && Copied(old(s), s)
                && Merged(Held(old(s), Target(old(s))), Held(old(s), s.worker.source), Held(s, Target(s)))
              else Halted(old(s), s, old(s.worker.source))
    {
      ghost var s0 := s;
      ok := true;
      while s.worker.todo != {}
        invariant Traced() && begun == old(begun) && InCopy(s0, s)
        invariant s0.cancel ==> s.worker.todo == s0.worker.todo
        decreases s.worker.todo
      {
        ok := CopyNext(s0);
        if !ok {
          return;
        }
      }
    }

    method CopyNext(ghost s0: State) returns (ok: bool)
      requires Traced() && InCopy(s0, s) && s.worker.todo != {}
      modifies this
      ensures Traced() && begun == old(begun) && (ok <==> !s0.cancel)
      ensures if ok then InCopy(s0, s) && s.worker.todo < old(s.worker.todo) else Halted(s0, s, s0.worker.source)
    {
      var p := Choose(s.worker.todo);
      CopyKeepsOn(kind, s0, s, p);
      Do(CopyOne(p));
      ok := !s.cancel;
      if !ok {
        CancelHalts(kind, s0, s);
        Do(SeeCancel);
      }
    }

    /** `shutil.rmtree`. */
    method RemoveSource()
      requires Traced() && s.worker.Deleting? && s.worker.source in s.disk
      modifies this
      ensures Traced() && begun == old(begun) && Removing(old(s), s) && s.worker.source !in s.disk
    {
      ghost var s0 := s;
      while s.disk[s.worker.source] != map[]
        invariant Traced() && begun == old(begun) && Removing(s0, s) && s.worker.source in s.disk
        decreases s.disk[s.worker.source].Keys
      {
        KeysOf(s.disk[s.worker.source]);
        var p := Choose(s.disk[s.worker.source].Keys);
        OneRemoved(kind, s0, s, p);
        Do(DeleteOne(p));
      }
      AllRemoved(kind, s0, s);
      Do(DeleteDir);
    }

    /**
     * An attempt that does not crash completes exactly when nothing cancels it and, with a source
     * to copy, the target holds no file that the source does not have.
     */
    method Execute()
      requires Traced() && Enabled(kind, s, Begin)
      modifies this
      ensures Traced() && begun == old(begun)
      ensures if Completes(old(s), SourceNow(kind, old(s)))
              then Moved(old(s), s, SourceNow(kind, old(s)))
              else Halted(old(s), s, SourceNow(kind, old(s)))
    {
      ghost var s0 := s;
      Start();
      if s.worker.CopyingFiles? {
        var ok := CopyAndVerify(s0);
        if !ok {
          return;
        }
      }
      if s.cancel {
        CancelHalts(kind, s0, s);
        Do(SeeCancel);
        return;
      }
      Finish(s0);
    }

    method Start()
      requires Traced() && Enabled(kind, s, Begin)
      modifies this
      ensures Traced() && begun == old(begun) && SameRow(old(s), s)
      ensures s.worker == if SourceNow(kind, old(s)) in old(s.disk)
                          then CopyingFiles(SourceNow(kind, old(s)), Held(s, SourceNow(kind, old(s))).Keys)
                          else Checked(SourceNow(kind, old(s)))
      ensures forall l :: Held(s, l) == Held(old(s), l)
    {
      Do(Begin);
    }

    method CopyAndVerify(ghost s0: State) returns (ok: bool)
      requires Traced() && s.worker.CopyingFiles? && SameRow(s0, s)
      requires s.worker.todo == Held(s, s.worker.source).Keys && forall l :: Held(s, l) == Held(s0, l)
      modifies this
      ensures Traced() && begun == old(begun)
      ensures ok <==> !s0.cancel && Held(s0, Target(s0)).Keys <= Held(s0, old(s.worker.source)).Keys
      ensures if ok then ToFinish(s0, s, old(s.worker.source)) else Halted(s0, s, old(s.worker.source))
    {
      ghost var s1 := s;
      ok := CopyAll();
      if !ok {
        return;
      }
      MergedCount(Held(s1, Target(s1)), Held(s1, s.worker.source), Held(s, Target(s)));
      Do(CopyDone);
      ok := Verify(s0);
    }

    method Verify(ghost s0: State) returns (ok: bool)
      requires Traced() && s.worker.CopiedAll? && SameRow(s0, s)
      requires Held(s, s.worker.source) == Held(s0, s.worker.source)
      requires Merged(Held(s0, Target(s0)), Held(s0, s.worker.source), Held(s, Target(s0)))
      modifies this
      ensures Traced() && begun == old(begun)
      ensures ok <==> !s0.cancel && |Held(s0, old(s.worker.source))| == |Held(old(s), Target(s0))|
      ensures if ok then ToFinish(s0, s, old(s.worker.source)) else Halted(s0, s, old(s.worker.source))
    {
      if s.cancel {
        CancelHalts(kind, s0, s);
        Do(SeeCancel);
        return false;
      }
      ok := |Held(s, s.worker.source)| == |Held(s, Target(s))|;
      if ok {
        Do(VerifyOk);
      } else {
        FailHalts(kind, s0, s);
        Do(VerifyFail);
      }
    }

    method SwitchOver()
      requires Traced() && s.worker.Checked? && s.record.Some? && !s.cancel
      modifies this
      ensures Traced() && begun == old(begun) && s.record.Some? && s.disk == old(s.disk)
      ensures s.worker == Deleting(old(s.worker.source)) && s.pointer == Target(s) == Target(old(s))
    {
      Do(StartClean);
      Do(Switch);
    }

    /** The switch and everything after it. */
    method Finish(ghost s0: State)
      requires Traced() && s.worker.Checked? && ToFinish(s0, s, s.worker.source)
      modifies this
      ensures Traced() && begun == old(begun) && Moved(s0, s, old(s.worker.source))
    {
      ghost var s1 := s;
      SwitchOver();
      if s.worker.source in s.disk {
        RemoveSource();
      }
      CompleteMoves(kind, s0, s1, s, s1.worker.source);
      Do(Complete);
    }
  }

  /** The row of the account or home, and the two stores of the migration, are as they were. */
  ghost predicate SameRow(before: State, after: State) {
    && before.record.Some? && after.record.Some? && Target(after) == Target(before)
    && after.pointer == before.pointer && after.migrating == before.migrating && after.cancel == before.cancel
  }

  /** Everything is copied and verified, and nothing cancels the attempt. */
  ghost predicate ToFinish(s0: State, s: State, source: Loc) {
    && s.worker == Checked(source) && SameRow(s0, s) && !s0.cancel
    && (source != Target(s0) ==> Merged(Held(s0, Target(s0)), Held(s0, source), Held(s, Target(s0))))
  }

  /** The count agrees exactly when the target brought nothing of its own. */
  lemma MergedCount(before: Contents, source: Contents, after: Contents)
    requires Merged(before, source, after)
    ensures |source| == |after| <==> before.Keys <= source.Keys
  {
    assert after.Keys == before.Keys + source.Keys;
    SubsetCount(source.Keys, after.Keys);
  }

  lemma KeysOf(m: Contents)
    requires m != map[]
    ensures m.Keys != {}
  {
    assert exists k :: k in m;
  }

  /** Since `s0` only the target changed, and the worker's list. */
  ghost predicate Copied(s0: State, s: State) {
    && s0.record.Some? && s0.worker.CopyingFiles? && s.worker.CopyingFiles? && s == s0.(disk := s.disk, worker := s.worker)
    && s.worker.source == s0.worker.source && Held(s, s.worker.source) == Held(s0, s.worker.source)
  }

  ghost predicate Merging(before: Contents, source: Contents, after: Contents, todo: set<Path>) {
    && (forall p :: p in after <==> p in before || (p in source && p !in todo))
    && (forall p :: p in after ==> after[p] == if p in before then before[p] else source[p])
  }

  ghost predicate InCopy(s0: State, s: State) {
    && Copied(s0, s) && s.worker.todo <= Held(s, s.worker.source).Keys
    && Merging(Held(s0, Target(s0)), Held(s0, s.worker.source), Held(s, Target(s0)), s.worker.todo)
  }

  ghost predicate Removing(s0: State, s: State) {
    && s == s0.(disk := s.disk) && s.worker.Deleting?
    && (forall l :: l != s.worker.source ==> (l in s.disk <==> l in s0.disk) && Held(s, l) == Held(s0, l))
  }

  lemma CopyKeepsOn(kind: Kind, s0: State, s: State, p: Path)
    requires InCopy(s0, s) && p in s.worker.todo
    ensures Enabled(kind, s, CopyOne(p)) && InCopy(s0, Next(kind, s, CopyOne(p)))
  {
  }

  lemma OneRemoved(kind: Kind, s0: State, s: State, p: Path)
    requires Removing(s0, s) && Enabled(kind, s, DeleteOne(p))
    ensures var s' := Next(kind, s, DeleteOne(p)); Removing(s0, s') && s.worker.source in s'.disk
    ensures Next(kind, s, DeleteOne(p)).disk[s.worker.source].Keys < s.disk[s.worker.source].Keys
  {
    assert p !in s.disk[s.worker.source] - {p};
  }

  lemma AllRemoved(kind: Kind, s0: State, s: State)
    requires Removing(s0, s) && Enabled(kind, s, DeleteDir)
    ensures Removing(s0, Next(kind, s, DeleteDir)) && s.worker.source !in Next(kind, s, DeleteDir).disk
  {
  }

  lemma FailHalts(kind: Kind, s0: State, s: State)
    requires SameRow(s0, s) && Enabled(kind, s, VerifyFail) && Held(s, s.worker.source) == Held(s0, s.worker.source)
    requires PartlyMerged(Held(s0, Target(s0)), Held(s0, s.worker.source), Held(s, Target(s0)))
    ensures Halted(s0, Next(kind, s, VerifyFail), s.worker.source)
  {
  }

  /** With the source gone, all that is left is to say so. */
  lemma CompleteMoves(kind: Kind, s0: State, s1: State, s: State, source: Loc)
    requires ToFinish(s0, s1, source) && Enabled(kind, s, Complete) && s.pointer == Target(s0) && source !in s.disk
    requires source != Target(s0) ==> Held(s, Target(s0)) == Held(s1, Target(s0))
    ensures Moved(s0, Next(kind, s, Complete), source)
  {
    var s' := Next(kind, s, Complete);
    assert s'.disk == s.disk;
    assert Held(s', Target(s0)) == Held(s, Target(s0));
  }

  lemma CancelHalts(kind: Kind, s0: State, s: State)
    requires s0.record.Some? && Enabled(kind, s, SeeCancel) && s0.cancel && Target(s) == Target(s0) && s.pointer == s0.pointer
    requires Held(s, s.worker.source) == Held(s0, s.worker.source)
    requires PartlyMerged(Held(s0, Target(s0)), Held(s0, s.worker.source), Held(s, Target(s0)))
    ensures Halted(s0, Next(kind, s, SeeCancel), s.worker.source)
  {
  }
}
