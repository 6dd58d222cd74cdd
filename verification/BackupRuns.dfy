/** What holds over every run of the backup jobs, and two runs that show where coherence ends. */
module BackupRuns {
  import opened BackupJobs
  import opened Wrappers

  datatype Run = Run(states: seq<State>, events: seq<Event>)

  ghost predicate Legal(run: Run, limits: Limits) {
    && |run.states| == |run.events| + 1
    && forall i :: 0 <= i < |run.events| ==>
      Enabled(run.states[i], run.events[i]) && run.states[i + 1] == Next(run.states[i], limits, run.events[i])
  }

  ghost predicate RunsFor(s: State, j: JobId, p: PolicyId) {
    j in s.jobs && s.jobs[j].policy == p && s.jobs[j].status == JobRunning
  }

  /** A policy that says running has a running job. */
  ghost predicate Backed(s: State) {
    forall p :: p in s.policies && s.policies[p].status == Running ==> exists j :: RunsFor(s, j, p)
  }

  /** A live worker has a row, which is running or has been closed over its head. */
  ghost predicate Staffed(s: State) {
    forall j :: j in s.workers ==> j in s.jobs && (s.jobs[j].status == JobRunning || AlreadyClosed(s.jobs[j]))
  }

  /** Nothing is left in the two dictionaries for a worker that is gone. */
  ghost predicate Tidy(s: State) {
    s.procs <= s.workers && s.progress.Keys <= s.workers
  }

  /** A classified job is over. */
  ghost predicate Settled(s: State) {
    forall j :: j in s.jobs && s.jobs[j].kind.Some? ==> s.jobs[j].status in {JobFailed, JobCompleted}
  }

  ghost predicate Inv(s: State) {
    Backed(s) && Staffed(s) && Tidy(s) && Settled(s)
  }

  // ---------------------------------------------------------------------------
  // Every step keeps the rows coherent
  // ---------------------------------------------------------------------------

  lemma StepTidy(s: State, limits: Limits, e: Event)
    requires Tidy(s) && Enabled(s, e)
    ensures Tidy(Next(s, limits, e))
  {
  }

  lemma StepStaffed(s: State, limits: Limits, e: Event)
    requires Staffed(s) && Enabled(s, e)
    ensures Staffed(Next(s, limits, e))
  {
  }

  lemma StepSettled(s: State, limits: Limits, e: Event)
    requires Settled(s) && Staffed(s) && Enabled(s, e)
    ensures Settled(Next(s, limits, e))
  {
  }

  lemma CloseHeals(s: State, doomed: set<JobId>, kind: FailureKind, j: JobId, p: PolicyId)
    requires j in doomed && RunsFor(s, j, p) && p in s.policies
    ensures Swept(s, doomed, kind).policies[p].status != Running
  {
    assert Hit(s, doomed, p);
  }

  lemma SweepBacked(s: State, doomed: set<JobId>, kind: FailureKind)
    requires Backed(s)
    ensures Backed(Swept(s, doomed, kind))
  {
    var after := Swept(s, doomed, kind);
    forall p | p in after.policies && after.policies[p].status == Running ensures exists j :: RunsFor(after, j, p) {
      var j :| RunsFor(s, j, p);
      if j in doomed {
        CloseHeals(s, doomed, kind, j, p);
      }
      assert RunsFor(after, j, p);
    }
  }

  lemma SameRowsBacked(a: State, b: State)
    requires Backed(a) && a.jobs == b.jobs && a.policies == b.policies
    ensures Backed(b)
  {
    forall p | p in b.policies && b.policies[p].status == Running ensures exists j :: RunsFor(b, j, p) {
      var j :| RunsFor(a, j, p);
      assert RunsFor(b, j, p);
    }
  }

  /** Whatever a worker writes to a job row, a policy still running is not the policy of that job. */
  lemma WorkerBacked(s: State, e: Event, limits: Limits)
    requires Backed(s) && Enabled(s, e) && (e.Succeed? || e.Fail?)
    ensures Backed(Next(s, limits, e))
  {
    var after := Next(s, limits, e);
    forall p | p in after.policies && after.policies[p].status == Running ensures exists j :: RunsFor(after, j, p) {
      assert p != s.jobs[e.job].policy;
      var j :| RunsFor(s, j, p);
      assert RunsFor(after, j, p);
    }
  }

  lemma StartBacked(s: State, e: Event, limits: Limits)
    requires Backed(s) && Enabled(s, e) && e.Start?
    ensures Backed(Next(s, limits, e))
  {
    var after := Next(s, limits, e);
    forall p | p in after.policies && after.policies[p].status == Running ensures exists j :: RunsFor(after, j, p) {
      if p == e.policy {
        assert RunsFor(after, e.job, p);
      } else {
        var j :| RunsFor(s, j, p);
        assert RunsFor(after, j, p);
      }
    }
  }

  lemma StepBacked(s: State, limits: Limits, e: Event)
    requires Backed(s) && Enabled(s, e)
    ensures Backed(Next(s, limits, e))
  {
    match e {
      case Start(_, _, _, _) => StartBacked(s, e, limits);
      case Succeed(_, _) => WorkerBacked(s, e, limits);
      case Fail(_) => WorkerBacked(s, e, limits);
      case Reap(now) =>
        SweepBacked(s, StuckJobs(s, limits, now), Stalled);
        SameRowsBacked(Swept(s, StuckJobs(s, limits, now), Stalled), Next(s, limits, e));
      case Boot => SweepBacked(s, Zombies(s), Interrupted);
      case _ => SameRowsBacked(s, Next(s, limits, e));
    }
  }

  /** In every run, a policy marked running has a running job, and the registries hold live workers only. */
  lemma {:induction false} RunCoherent(run: Run, limits: Limits, i: nat)
    requires Legal(run, limits) && Inv(run.states[0]) && i <= |run.events|
    ensures Inv(run.states[i])
  {
    if i > 0 {
      RunCoherent(run, limits, i - 1);
      StepTidy(run.states[i - 1], limits, run.events[i - 1]);
      StepStaffed(run.states[i - 1], limits, run.events[i - 1]);
      StepSettled(run.states[i - 1], limits, run.events[i - 1]);
      StepBacked(run.states[i - 1], limits, run.events[i - 1]);
    }
  }

  // ---------------------------------------------------------------------------
  // The boot sweep
  // ---------------------------------------------------------------------------

  ghost predicate Quiet(s: State) {
    && (forall j :: j in s.jobs ==> s.jobs[j].status !in {JobRunning, JobPending})
    && (forall p :: p in s.policies ==> s.policies[p].status != Running)
  }

  lemma BootQuiets(s: State, limits: Limits)
    requires Backed(s) && s.procs == {}
    ensures Quiet(Next(s, limits, Boot))
  {
    var after := Next(s, limits, Boot);
    forall p | p in after.policies ensures after.policies[p].status != Running {
      if s.policies[p].status == Running {
        var j :| RunsFor(s, j, p);
        CloseHeals(s, Zombies(s), Interrupted, j, p);
      }
    }
  }

  /** A crash anywhere followed by the boot sweep leaves no job and no policy running. */
  lemma CrashThenBoot(run: Run, limits: Limits, i: nat)
    requires Legal(run, limits) && Inv(run.states[0]) && i + 1 < |run.events|
    requires run.events[i] == Crash && run.events[i + 1] == Boot
    ensures Quiet(run.states[i + 2])
  {
    RunCoherent(run, limits, i + 1);
    BootQuiets(run.states[i + 1], limits);
  }

  // ---------------------------------------------------------------------------
  // A verdict is final
  // ---------------------------------------------------------------------------

  ghost predicate SucceedsAs(e: Event, j: JobId) {
    e.Succeed? && e.job == j
  }

  ghost predicate SucceedsIn(es: seq<Event>, j: JobId) {
    exists e :: e in es && SucceedsAs(e, j)
  }

  lemma StepKeepsKind(s: State, limits: Limits, e: Event, j: JobId)
    requires Staffed(s) && Settled(s) && Enabled(s, e) && j in s.jobs && s.jobs[j].kind.Some?
    ensures j in Next(s, limits, e).jobs
    ensures Next(s, limits, e).jobs[j].kind == s.jobs[j].kind && Next(s, limits, e).jobs[j].policy == s.jobs[j].policy
    ensures s.jobs[j].status == JobFailed ==> (Next(s, limits, e).jobs[j].status == JobFailed <==> !SucceedsAs(e, j))
    ensures s.jobs[j].status == JobCompleted ==> Next(s, limits, e).jobs[j].status == JobCompleted
  {
  }

  lemma LastOfSlice(es: seq<Event>, i: nat, k: nat, j: JobId)
    requires i < k <= |es|
    ensures SucceedsIn(es[i..k], j) <==> SucceedsIn(es[i..k - 1], j) || SucceedsAs(es[k - 1], j)
  {
    assert es[i..k] == es[i..k - 1] + [es[k - 1]];
  }

  /** Once set, the failure kind of a job never changes and the job never runs again. */
  lemma {:induction false} KindIsFinal(run: Run, limits: Limits, i: nat, k: nat, j: JobId)
    requires Legal(run, limits) && Inv(run.states[0]) && i <= k <= |run.events|
    requires j in run.states[i].jobs && run.states[i].jobs[j].kind.Some?
    ensures j in run.states[k].jobs && run.states[k].jobs[j].kind == run.states[i].jobs[j].kind
    ensures run.states[k].jobs[j].status in {JobFailed, JobCompleted}
    ensures run.states[i].jobs[j].status == JobFailed ==>
              (run.states[k].jobs[j].status == JobFailed <==> !SucceedsIn(run.events[i..k], j))
    decreases k
  {
    if k == i {
      RunCoherent(run, limits, i);
    } else {
      KindIsFinal(run, limits, i, k - 1, j);
      RunCoherent(run, limits, k - 1);
      StepKeepsKind(run.states[k - 1], limits, run.events[k - 1], j);
      LastOfSlice(run.events, i, k, j);
    }
  }

  // ---------------------------------------------------------------------------
  // Who may turn a completed policy
  // ---------------------------------------------------------------------------

  /** Event `e` takes policy `p` from completed to failed: a worker failing late, never a sweep. */
  ghost predicate Clobbers(s: State, e: Event, p: PolicyId) {
    || (e.Fail? && e.job in s.jobs && s.jobs[e.job].policy == p)
    || (e.Start? && e.policy == p && !e.accountFound)
  }

  /** A completed policy fails in one step exactly when a worker of it fails, or a run finds no account. */
  lemma OnlyWorkersClobber(s: State, limits: Limits, e: Event, p: PolicyId)
    requires Enabled(s, e) && p in s.policies && s.policies[p].status == Completed
    ensures p in Next(s, limits, e).policies
    ensures Next(s, limits, e).policies[p].status == Failed <==> Clobbers(s, e, p)
  {
  }

  // ---------------------------------------------------------------------------
  // When the policy mirrors its jobs
  // ---------------------------------------------------------------------------

  /** Every running job shows: its policy, if there is one, says running. */
  ghost predicate Exact(s: State) {
    forall p, j :: p in s.policies && RunsFor(s, j, p) ==> s.policies[p].status == Running
  }

  /** The policy says running exactly while one of its jobs is. */
  ghost predicate Mirrors(s: State) {
    forall p :: p in s.policies ==> (s.policies[p].status == Running <==> exists j :: RunsFor(s, j, p))
  }

  ghost predicate OtherRuns(s: State, j: JobId, p: PolicyId) {
    p in s.policies && exists i :: i != j && RunsFor(s, i, p)
  }

  /** A sweep closes one job of a running policy and leaves another one running. */
  ghost predicate SweepHides(s: State, doomed: set<JobId>, p: PolicyId) {
    && p in s.policies && s.policies[p].status == Running && Hit(s, doomed, p)
    && exists i :: i !in doomed && RunsFor(s, i, p)
  }

  /** The step takes the running mark from a policy that still has a running job. */
  ghost predicate Hides(s: State, limits: Limits, e: Event) {
    match e
    case Succeed(j, _) => j in s.jobs && OtherRuns(s, j, s.jobs[j].policy)
    case Fail(j) => j in s.jobs && OtherRuns(s, j, s.jobs[j].policy)
    case Start(p, found, _, _) => !found && p in s.policies && exists i :: RunsFor(s, i, p)
    case Reap(now) => exists p :: SweepHides(s, StuckJobs(s, limits, now), p)
    case Boot => exists p :: SweepHides(s, Zombies(s), p)
    case _ => false
  }

  /** A row that runs after a step ran before it, unless the step started it. */
  lemma RunsBefore(s: State, limits: Limits, e: Event, j: JobId, p: PolicyId)
    requires Enabled(s, e) && RunsFor(Next(s, limits, e), j, p)
    ensures RunsFor(s, j, p) || (e.Start? && e.accountFound && e.policy == p && e.job == j)
  {
  }

  lemma SweepExact(s: State, doomed: set<JobId>, kind: FailureKind)
    requires Exact(s)
    ensures Exact(Swept(s, doomed, kind)) <==> !exists p :: SweepHides(s, doomed, p)
  {
    var after := Swept(s, doomed, kind);
    if p :| SweepHides(s, doomed, p) {
      var i :| i !in doomed && RunsFor(s, i, p);
      assert RunsFor(after, i, p) && after.policies[p].status == Failed;
    } else {
      forall p, j | p in after.policies && RunsFor(after, j, p) ensures after.policies[p].status == Running {
        assert RunsFor(s, j, p) && j !in doomed;
        assert !SweepHides(s, doomed, p);
      }
    }
  }

  lemma SameRowsExact(a: State, b: State)
    requires a.jobs == b.jobs && a.policies == b.policies
    ensures Exact(a) <==> Exact(b)
  {
    forall p, j ensures RunsFor(a, j, p) <==> RunsFor(b, j, p) {
    }
  }

  lemma WorkerExact(s: State, limits: Limits, e: Event)
    requires Exact(s) && Enabled(s, e) && (e.Succeed? || e.Fail?)
    ensures Exact(Next(s, limits, e)) <==> !Hides(s, limits, e)
  {
    var after, p := Next(s, limits, e), s.jobs[e.job].policy;
    if Hides(s, limits, e) {
      var i :| i != e.job && RunsFor(s, i, p);
      assert RunsFor(after, i, p) && after.policies[p].status != Running;
    } else {
      forall q, j | q in after.policies && RunsFor(after, j, q) ensures after.policies[q].status == Running {
        RunsBefore(s, limits, e, j, q);
        assert j != e.job;
      }
    }
  }

  lemma StartExact(s: State, limits: Limits, e: Event)
    requires Exact(s) && Enabled(s, e) && e.Start?
    ensures Exact(Next(s, limits, e)) <==> !Hides(s, limits, e)
  {
    var after := Next(s, limits, e);
    if Hides(s, limits, e) {
      var i :| RunsFor(s, i, e.policy);
      assert RunsFor(after, i, e.policy) && after.policies[e.policy].status == Failed;
    } else {
      forall q, j | q in after.policies && RunsFor(after, j, q) ensures after.policies[q].status == Running {
        RunsBefore(s, limits, e, j, q);
      }
    }
  }

  /** One step keeps every running job in view exactly when it does not hide one. */
  lemma StepExact(s: State, limits: Limits, e: Event)
    requires Exact(s) && Enabled(s, e)
    ensures Exact(Next(s, limits, e)) <==> !Hides(s, limits, e)
  {
    match e {
      case Reap(now) =>
        SweepExact(s, StuckJobs(s, limits, now), Stalled);
        SameRowsExact(Swept(s, StuckJobs(s, limits, now), Stalled), Next(s, limits, e));
      case Boot => SweepExact(s, Zombies(s), Interrupted);
      case Succeed(_, _) => WorkerExact(s, limits, e);
      case Fail(_) => WorkerExact(s, limits, e);
      case Start(_, _, _, _) => StartExact(s, limits, e);
      case _ => SameRowsExact(s, Next(s, limits, e));
    }
  }

  ghost predicate NothingHidden(run: Run, limits: Limits, n: nat)
    requires n <= |run.events| < |run.states|
  {
    forall i :: 0 <= i < n ==> !Hides(run.states[i], limits, run.events[i])
  }

  ghost predicate AllExact(run: Run, n: nat)
    requires n < |run.states|
  {
    forall i :: 0 <= i <= n ==> Exact(run.states[i])
  }

  lemma {:induction false} ExactWhileNothingHidden(run: Run, limits: Limits, n: nat)
    requires Legal(run, limits) && Exact(run.states[0]) && n <= |run.events|
    ensures AllExact(run, n) <==> NothingHidden(run, limits, n)
  {
    if n > 0 {
      ExactWhileNothingHidden(run, limits, n - 1);
      if AllExact(run, n - 1) {
        StepExact(run.states[n - 1], limits, run.events[n - 1]);
      }
      assert AllExact(run, n) <==> AllExact(run, n - 1) && Exact(run.states[n]);
      assert NothingHidden(run, limits, n) <==> NothingHidden(run, limits, n - 1) && !Hides(run.states[n - 1], limits, run.events[n - 1]);
    }
  }

  lemma ExactMirrors(s: State)
    requires Backed(s)
    ensures Mirrors(s) <==> Exact(s)
  {
  }

  /**
   * In any run from coherent rows, every policy says running exactly while one of its jobs is,
   * at all times, if and only if no step hides a running job.
   */
  lemma PolicyMirrorsJobs(run: Run, limits: Limits, n: nat)
    requires Legal(run, limits) && Inv(run.states[0]) && Mirrors(run.states[0]) && n <= |run.events|
    ensures (forall i :: 0 <= i <= n ==> Mirrors(run.states[i])) <==> NothingHidden(run, limits, n)
  {
    forall i | 0 <= i <= n ensures Mirrors(run.states[i]) <==> Exact(run.states[i]) {
      RunCoherent(run, limits, i);
      ExactMirrors(run.states[i]);
    }
    ExactWhileNothingHidden(run, limits, n);
  }

  // ---------------------------------------------------------------------------
  // One run at a time
  // ---------------------------------------------------------------------------

  /** No job and no live worker of the policy. */
  ghost predicate Free(s: State, p: PolicyId) {
    && (forall j :: !RunsFor(s, j, p))
    && (forall w :: w in s.workers && w in s.jobs ==> s.jobs[w].policy != p)
  }

  /** No run of a policy is started while an earlier one is still about: the caller's side. */
  ghost predicate OneAtATime(run: Run)
    requires |run.states| == |run.events| + 1
  {
    forall i :: 0 <= i < |run.events| && run.events[i].Start? ==> Free(run.states[i], run.events[i].policy)
  }

  ghost predicate Single(s: State) {
    && (forall i, j, p :: RunsFor(s, i, p) && RunsFor(s, j, p) ==> i == j)
    && (forall w, j, p :: w in s.workers && w in s.jobs && s.jobs[w].policy == p && RunsFor(s, j, p) ==> w == j)
    && (forall j :: j in s.jobs ==> s.jobs[j].status != JobPending)
  }

  ghost predicate StartsFree(s: State, e: Event) {
    e.Start? ==> Free(s, e.policy)
  }

  lemma WorkedBefore(s: State, limits: Limits, e: Event, w: JobId)
    requires Staffed(s) && Enabled(s, e) && w in Next(s, limits, e).workers && w in Next(s, limits, e).jobs
    ensures (w in s.workers && w in s.jobs && s.jobs[w].policy == Next(s, limits, e).jobs[w].policy)
            || (e.Start? && e.accountFound && e.job == w && e.policy == Next(s, limits, e).jobs[w].policy)
  {
  }

  lemma StepSingle(s: State, limits: Limits, e: Event)
    requires Single(s) && Staffed(s) && Enabled(s, e) && StartsFree(s, e)
    ensures Single(Next(s, limits, e))
  {
    var after := Next(s, limits, e);
    forall i, j, p | RunsFor(after, i, p) && RunsFor(after, j, p) ensures i == j {
      RunsBefore(s, limits, e, i, p);
      RunsBefore(s, limits, e, j, p);
    }
    forall w, j, p | w in after.workers && w in after.jobs && after.jobs[w].policy == p && RunsFor(after, j, p) ensures w == j {
      RunsBefore(s, limits, e, j, p);
      WorkedBefore(s, limits, e, w);
    }
  }

  lemma SweepHidesNothing(s: State, doomed: set<JobId>)
    requires Single(s) && forall j :: j in doomed ==> j in s.jobs && s.jobs[j].status == JobRunning
    ensures forall p :: !SweepHides(s, doomed, p)
  {
    forall p | Hit(s, doomed, p) ensures !SweepHides(s, doomed, p) {
      var j :| j in doomed && j in s.jobs && s.jobs[j].policy == p;
      assert RunsFor(s, j, p);
    }
  }

  lemma SingleHidesNothing(s: State, limits: Limits, e: Event)
    requires Single(s) && Enabled(s, e) && StartsFree(s, e)
    ensures !Hides(s, limits, e)
  {
    if e.Reap? {
      SweepHidesNothing(s, StuckJobs(s, limits, e.now));
    } else if e.Boot? {
      SweepHidesNothing(s, Zombies(s));
    }
  }

  lemma {:induction false} StaysSingle(run: Run, limits: Limits, i: nat)
    requires Legal(run, limits) && Inv(run.states[0]) && Single(run.states[0]) && OneAtATime(run) && i <= |run.events|
    ensures Single(run.states[i])
  {
    if i > 0 {
      StaysSingle(run, limits, i - 1);
      RunCoherent(run, limits, i - 1);
      StepSingle(run.states[i - 1], limits, run.events[i - 1]);
    }
  }

  /** So it does as long as runs of a policy do not overlap. */
  lemma NoOverlapMirrors(run: Run, limits: Limits, i: nat)
    requires Legal(run, limits) && Inv(run.states[0]) && Single(run.states[0]) && Mirrors(run.states[0])
    requires OneAtATime(run) && i <= |run.events|
    ensures Mirrors(run.states[i])
  {
    forall k | 0 <= k < i ensures !Hides(run.states[k], limits, run.events[k]) {
      StaysSingle(run, limits, k);
      SingleHidesNothing(run.states[k], limits, run.events[k]);
    }
    PolicyMirrorsJobs(run, limits, i);
  }

  // ---------------------------------------------------------------------------
  // Where coherence ends
  // ---------------------------------------------------------------------------

  const EARLY := JobId(0)
  const LATE := JobId(1)
  const POLICY := PolicyId(0)

  const NOTHING_YET := State(map[], map[POLICY := Policy(Idle, None)], map[], {}, {})

  ghost function Extend(run: Run, limits: Limits, e: Event): Run
    requires |run.states| > 0 && Enabled(run.states[|run.states| - 1], e)
  {
    Run(run.states + [Next(run.states[|run.states| - 1], limits, e)], run.events + [e])
  }

  lemma ExtendLegal(run: Run, limits: Limits, e: Event)
    requires Legal(run, limits) && Enabled(run.states[|run.events|], e)
    ensures Legal(Extend(run, limits, e), limits)
  {
  }

  /** Long enough for both tests of the watchdog. */
  function Late(limits: Limits): int {
    if limits.grace > limits.threshold then limits.grace else limits.threshold
  }

  /** A first run wedges and is reaped. */
  lemma Wedged(limits: Limits) returns (run: Run)
    ensures Legal(run, limits) && run.states[0] == NOTHING_YET
    ensures run.events == [Start(POLICY, true, EARLY, 0), Reap(Late(limits))]
    ensures run.states[2] == State(map[EARLY := Job(POLICY, JobFailed, Some(Stalled), Some(0))],
                                   map[POLICY := Policy(Failed, Some(Marker(Stalled)))], map[], {}, {EARLY})
  {
    run := StartEarly(limits);
    var s := run.states[1];
    ExtendLegal(run, limits, Reap(Late(limits)));
    run := Extend(run, limits, Reap(Late(limits)));
    assert StuckJobs(s, limits, Late(limits)) == {EARLY};
    assert Hit(s, {EARLY}, POLICY);
    assert run.states[2].jobs == map[EARLY := Job(POLICY, JobFailed, Some(Stalled), Some(0))];
    assert run.states[2].policies == map[POLICY := Policy(Failed, Some(Marker(Stalled)))];
    assert run.states[2].progress == map[];
  }

  lemma StartEarly(limits: Limits) returns (run: Run)
    ensures Legal(run, limits) && run.states[0] == NOTHING_YET && run.events == [Start(POLICY, true, EARLY, 0)]
    ensures run.states[1] == State(map[EARLY := Job(POLICY, JobRunning, None, Some(0))],
                                   map[POLICY := Policy(Running, None)], map[EARLY := 0], {}, {EARLY})
  {
    run := Run([NOTHING_YET], []);
    ExtendLegal(run, limits, Start(POLICY, true, EARLY, 0));
    run := Extend(run, limits, Start(POLICY, true, EARLY, 0));
    assert run.states[1].policies == map[POLICY := Policy(Running, None)];
  }

  /**
   * A job the watchdog closed can still end as completed, its failure kind left behind, and, when
   * the worker's session does not know of it, the marker in the policy too.
   */
  lemma ReapedJobCompletes(limits: Limits, clears: bool) returns (run: Run)
    ensures Legal(run, limits) && run.states[0] == NOTHING_YET
    ensures run.events == [Start(POLICY, true, EARLY, 0), Reap(Late(limits)), Succeed(EARLY, clears)]
    ensures EARLY in run.states[3].jobs && run.states[3].jobs[EARLY] == Job(POLICY, JobCompleted, Some(Stalled), Some(0))
    ensures POLICY in run.states[3].policies
    ensures run.states[3].policies[POLICY] == Policy(Completed, if clears then None else Some(Marker(Stalled)))
  {
    run := Wedged(limits);
    ExtendLegal(run, limits, Succeed(EARLY, clears));
    run := Extend(run, limits, Succeed(EARLY, clears));
  }

  /** The failure of a reaped run overwrites the success of the run after it, and names no error. */
  lemma LateFailureClobbers(limits: Limits) returns (run: Run)
    ensures Legal(run, limits) && run.states[0] == NOTHING_YET
    ensures run.events == [Start(POLICY, true, EARLY, 0), Reap(Late(limits)), Start(POLICY, true, LATE, Late(limits)), Succeed(LATE, true), Fail(EARLY)]
    ensures LATE in run.states[5].jobs && run.states[5].jobs[LATE].status == JobCompleted
    ensures POLICY in run.states[5].policies && run.states[5].policies[POLICY] == Policy(Failed, None)
  {
    run := Wedged(limits);
    ExtendLegal(run, limits, Start(POLICY, true, LATE, Late(limits)));
    run := Extend(run, limits, Start(POLICY, true, LATE, Late(limits)));
    ExtendLegal(run, limits, Succeed(LATE, true));
    run := Extend(run, limits, Succeed(LATE, true));
    ExtendLegal(run, limits, Fail(EARLY));
    run := Extend(run, limits, Fail(EARLY));
  }

  /** Two overlapping runs: the first to end takes the running mark from the other. */
  lemma OverlapHidesRun(limits: Limits) returns (run: Run)
    ensures Legal(run, limits) && run.states[0] == NOTHING_YET
    ensures run.events == [Start(POLICY, true, EARLY, 0), Start(POLICY, true, LATE, 0), Succeed(EARLY, true)]
    ensures RunsFor(run.states[3], LATE, POLICY)
    ensures POLICY in run.states[3].policies && run.states[3].policies[POLICY].status == Completed
  {
    run := StartEarly(limits);
    ExtendLegal(run, limits, Start(POLICY, true, LATE, 0));
    run := Extend(run, limits, Start(POLICY, true, LATE, 0));
    ExtendLegal(run, limits, Succeed(EARLY, true));
    run := Extend(run, limits, Succeed(EARLY, true));
  }
}
