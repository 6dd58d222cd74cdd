/**
 * What each step of the backups does, row by row and registry entry by registry entry: which jobs
 * it closes, which policies it marks, and that nothing else changes.
 */
module BackupLaws {
  import opened BackupJobs
  import opened Wrappers

  /** The watchdog, the boot sweep and a crash can come at any time, and any policy can be started. */
  lemma StepsAnytime(s: State, now: int, p: PolicyId, found: bool, j: JobId)
    ensures Enabled(s, Reap(now)) && Enabled(s, Boot) && Enabled(s, Crash)
    ensures j !in s.jobs ==> Enabled(s, Start(p, found, j, now))
    ensures j in s.workers ==> Enabled(s, Tick(j, now)) && Enabled(s, Register(j))
    ensures j in s.workers && j in s.jobs ==> Enabled(s, Succeed(j, found)) && Enabled(s, Fail(j))
  {
  }

  /** Only the rows and entries of `j` and the policy `p` may differ. */
  ghost predicate OnlyTouches(a: State, b: State, j: JobId, p: PolicyId) {
    && (forall i :: i != j ==> (i in a.jobs <==> i in b.jobs) && (i in a.jobs ==> b.jobs[i] == a.jobs[i]))
    && (forall q :: q != p ==> (q in a.policies <==> q in b.policies) && (q in a.policies ==> b.policies[q] == a.policies[q]))
    && (forall i :: i != j ==> (i in a.progress <==> i in b.progress) && (i in a.progress ==> b.progress[i] == a.progress[i]))
    && (forall i :: i != j ==> (i in a.procs <==> i in b.procs) && (i in a.workers <==> i in b.workers))
  }

  ghost predicate Unregistered(s: State, j: JobId) {
    j !in s.progress && j !in s.procs && j !in s.workers
  }

  /** The watchdog's grace is over for the job, and its heartbeat is missing or old. */
  ghost predicate Overdue(s: State, limits: Limits, now: int, j: JobId) {
    && j in s.jobs && s.jobs[j].status == JobRunning
    && (exists t :: s.jobs[j].started == Some(t) && t + limits.grace <= now)
    && (j in s.progress ==> s.progress[j] + limits.threshold <= now)
  }

  /** What the boot sweep closes: no process survives a restart. */
  ghost predicate Orphaned(s: State, j: JobId) {
    j in s.jobs && (s.jobs[j].status == JobRunning || s.jobs[j].status == JobPending) && j !in s.procs
  }

  ghost predicate ClosedAs(before: Job, after: Job, kind: FailureKind) {
    after.status == JobFailed && after.kind == Some(kind) && after.policy == before.policy && after.started == before.started
  }

  ghost predicate PolicyClosed(before: Policy, after: Policy, kind: FailureKind) {
    before.status == Running && after.status == Failed && after.error == Some(Marker(kind))
  }

  /** The watchdog closes every overdue job, whether or not its process lives, and no other. */
  lemma ReapsOverdue(s: State, limits: Limits, now: int, j: JobId)
    requires j in s.jobs
    ensures var s' := Next(s, limits, Reap(now));
            && j in s'.jobs
            && (if Overdue(s, limits, now, j) then ClosedAs(s.jobs[j], s'.jobs[j], Stalled) && j !in s'.progress && j !in s'.procs
                else s'.jobs[j] == s.jobs[j] && (j in s'.progress <==> j in s.progress) && (j in s'.procs <==> j in s.procs))
  {
    assert Stuck(s, limits, now, j) <==> Overdue(s, limits, now, j);
  }

  /** The policies it heals are the running ones of the jobs it closes. */
  lemma ReapHeals(s: State, limits: Limits, now: int, p: PolicyId)
    requires p in s.policies
    ensures var s' := Next(s, limits, Reap(now));
            && p in s'.policies
            && (if s.policies[p].status == Running && exists j :: Overdue(s, limits, now, j) && s.jobs[j].policy == p
                then PolicyClosed(s.policies[p], s'.policies[p], Stalled) else s'.policies[p] == s.policies[p])
  {
    assert forall j :: Overdue(s, limits, now, j) <==> j in StuckJobs(s, limits, now);
  }

  /** No row appears or goes, no heartbeat changes, and the workers live on. */
  lemma ReapFrame(s: State, limits: Limits, now: int)
    ensures var s' := Next(s, limits, Reap(now));
            && (forall j :: j in s'.jobs <==> j in s.jobs) && (forall p :: p in s'.policies <==> p in s.policies)
            && (forall j :: j in s'.progress ==> j in s.progress && s'.progress[j] == s.progress[j])
            && s'.procs <= s.procs && s'.workers == s.workers
  {
  }

  /** The boot sweep closes every orphaned job and no other, and heals the running policies of these. */
  lemma BootClosesOrphans(s: State, limits: Limits, j: JobId)
    requires j in s.jobs
    ensures var s' := Next(s, limits, Boot);
            j in s'.jobs && if Orphaned(s, j) then ClosedAs(s.jobs[j], s'.jobs[j], Interrupted) else s'.jobs[j] == s.jobs[j]
  {
  }

  lemma BootHeals(s: State, limits: Limits, p: PolicyId)
    requires p in s.policies
    ensures var s' := Next(s, limits, Boot);
            && p in s'.policies
            && (if s.policies[p].status == Running && exists j :: Orphaned(s, j) && s.jobs[j].policy == p
                then PolicyClosed(s.policies[p], s'.policies[p], Interrupted) else s'.policies[p] == s.policies[p])
  {
    assert forall j :: Orphaned(s, j) <==> j in Zombies(s);
  }

  lemma BootFrame(s: State, limits: Limits)
    ensures var s' := Next(s, limits, Boot);
            && (forall j :: j in s'.jobs <==> j in s.jobs) && (forall p :: p in s'.policies <==> p in s.policies)
            && s'.progress == s.progress && s'.procs == s.procs && s'.workers == s.workers
  {
  }

  /** A run begins with both rows running, a heartbeat, and no error; without an account only the policy fails. */
  lemma StartBegins(s: State, limits: Limits, p: PolicyId, found: bool, j: JobId, now: int)
    requires j !in s.jobs
    ensures var s' := Next(s, limits, Start(p, found, j, now));
            && OnlyTouches(s, s', j, p)
            && (p !in s.policies ==> s' == s)
            && (p in s.policies && !found ==>
                  p in s'.policies && s'.policies[p].status == Failed && s'.policies[p].error == Some(NoAccount) && s'.jobs == s.jobs)
            && (p in s.policies && found ==>
                  && j in s'.jobs && s'.jobs[j].status == JobRunning && s'.jobs[j].policy == p
                  && s'.jobs[j].started == Some(now) && s'.jobs[j].kind.None?
                  && p in s'.policies && s'.policies[p].status == Running && s'.policies[p].error.None?
                  && j in s'.progress && s'.progress[j] == now && j in s'.workers)
  {
  }

  /** A tick is a heartbeat of its own job. */
  lemma TickBeats(s: State, limits: Limits, j: JobId, now: int, p: PolicyId)
    requires j in s.workers
    ensures var s' := Next(s, limits, Tick(j, now));
            OnlyTouches(s, s', j, p) && s'.jobs == s.jobs && s'.policies == s.policies && j in s'.progress && s'.progress[j] == now
  {
  }

  /** A registered process is tracked from then on. */
  lemma RegisterTracks(s: State, limits: Limits, j: JobId, p: PolicyId)
    requires j in s.workers
    ensures var s' := Next(s, limits, Register(j));
            && OnlyTouches(s, s', j, p) && s'.jobs == s.jobs && s'.policies == s.policies
            && s'.progress == s.progress && s'.workers == s.workers && j in s'.procs
  {
  }

  /** A success completes the job and its policy; failure kind and, unless cleared, the error stay. */
  lemma SuccessCompletes(s: State, limits: Limits, j: JobId, clears: bool)
    requires j in s.workers && j in s.jobs
    ensures var s', p := Next(s, limits, Succeed(j, clears)), s.jobs[j].policy;
            && OnlyTouches(s, s', j, p) && Unregistered(s', j)
            && j in s'.jobs && s'.jobs[j].status == JobCompleted && s'.jobs[j].kind == s.jobs[j].kind
            && s'.jobs[j].policy == p && s'.jobs[j].started == s.jobs[j].started
            && (p in s'.policies <==> p in s.policies)
            && (p in s.policies ==> s'.policies[p].status == Completed && s'.policies[p].error == if clears then None else s.policies[p].error)
  {
  }

  /** A failure fails both; what a sweep has recorded on a job it closed is kept. */
  lemma FailureFails(s: State, limits: Limits, j: JobId)
    requires j in s.workers && j in s.jobs
    ensures var s', p := Next(s, limits, Fail(j)), s.jobs[j].policy;
            var recorded := s.jobs[j].status == JobFailed && s.jobs[j].kind.Some?;
            && OnlyTouches(s, s', j, p) && Unregistered(s', j)
            && j in s'.jobs && s'.jobs[j].status == JobFailed && s'.jobs[j].policy == p && s'.jobs[j].started == s.jobs[j].started
            && s'.jobs[j].kind == (if recorded then s.jobs[j].kind else Some(Error))
            && (p in s'.policies <==> p in s.policies)
            && (p in s.policies ==> s'.policies[p].status == Failed && s'.policies[p].error == if recorded then s.policies[p].error else Some(Text))
  {
  }

  /** A crash loses what is in memory and nothing else. */
  lemma CrashForgets(s: State, limits: Limits)
    ensures var s' := Next(s, limits, Crash);
            && s'.jobs == s.jobs && s'.policies == s.policies
            && forall j :: Unregistered(s', j)
  {
  }
}
