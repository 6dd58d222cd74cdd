/**
 * Off-site backup jobs (services/backup_worker.py): workers, the stall watchdog, the boot sweep
 * and crashes, all writing a job row and the row of its policy.
 */
module BackupJobs {
  import opened Wrappers

  // ---------------------------------------------------------------------------
  // Rows and registries
  // ---------------------------------------------------------------------------

  datatype JobId = JobId(n: nat)
  datatype PolicyId = PolicyId(n: nat)
  datatype JobStatus = JobPending | JobRunning | JobCompleted | JobFailed | JobCancelled
  datatype FailureKind = Interrupted | Stalled | Error
  datatype Job = Job(policy: PolicyId, status: JobStatus, kind: Option<FailureKind>, started: Option<int>)
  datatype PolicyStatus = Idle | Running | Completed | Failed

  /** What `last_error` tells: the marker of a sweep, the text of an exception, or a missing account. */
  datatype Cause = Marker(kind: FailureKind) | Text | NoAccount

  datatype Policy = Policy(status: PolicyStatus, error: Option<Cause>)

  /** The committed rows, the two module dictionaries, and the workers that are alive. */
  datatype State = State(
    jobs: map<JobId, Job>, policies: map<PolicyId, Policy>,
    progress: map<JobId, int>, procs: set<JobId>, workers: set<JobId>)

  datatype Limits = Limits(grace: int, threshold: int)

  /** Row by row, what a sweep that closes the jobs of `doomed` leaves. */
  ghost function Swept(s: State, doomed: set<JobId>, kind: FailureKind): State {
    s.(jobs := map j | j in s.jobs :: ClosedJob(s.jobs[j], j in doomed, kind),
       policies := map p | p in s.policies :: ClosedPolicy(s.policies[p], Hit(s, doomed, p), kind))
  }

  ghost predicate Hit(s: State, doomed: set<JobId>, p: PolicyId) {
    exists j :: j in doomed && j in s.jobs && s.jobs[j].policy == p
  }

  function ClosedJob(job: Job, doomed: bool, kind: FailureKind): Job {
    if doomed then job.(status := JobFailed, kind := Some(kind)) else job
  }

  function ClosedPolicy(policy: Policy, hit: bool, kind: FailureKind): Policy {
    if hit && policy.status == Running then Policy(Failed, Some(Marker(kind))) else policy
  }

  /** What the boot sweep takes for a zombie. */
  predicate Zombie(s: State, j: JobId) {
    j in s.jobs && s.jobs[j].status in {JobRunning, JobPending} && j !in s.procs
  }

  /** What the watchdog takes for stalled; a live process is no excuse. */
  predicate Stuck(s: State, limits: Limits, now: int, j: JobId) {
    && j in s.jobs && s.jobs[j].status == JobRunning && s.jobs[j].started.Some?
    && now - s.jobs[j].started.value >= limits.grace
    && !(j in s.progress && now - s.progress[j] < limits.threshold)
  }

  function Zombies(s: State): set<JobId> {
    set j | j in s.jobs && Zombie(s, j)
  }

  function StuckJobs(s: State, limits: Limits, now: int): set<JobId> {
    set j | j in s.jobs && Stuck(s, limits, now, j)
  }

  // ---------------------------------------------------------------------------
  // Steps
  // ---------------------------------------------------------------------------

  datatype Event =
    | Start(policy: PolicyId, accountFound: bool, job: JobId, now: int)
    | Tick(job: JobId, now: int)
    | Register(job: JobId)
    | Succeed(job: JobId, clears: bool)
    | Fail(job: JobId)
    | Reap(now: int)
    | Boot
    | Crash

  ghost predicate Enabled(s: State, e: Event) {
    match e
    case Start(_, _, j, _) => j !in s.jobs
    case Tick(j, _) => j in s.workers
    case Register(j) => j in s.workers
    case Succeed(j, _) => j in s.workers && j in s.jobs
    case Fail(j) => j in s.workers && j in s.jobs
    case _ => true
  }

  ghost function Begun(s: State, p: PolicyId, found: bool, j: JobId, now: int): State {
    if p !in s.policies then s
    else if !found then s.(policies := s.policies[p := Policy(Failed, Some(NoAccount))])
    else s.(jobs := s.jobs[j := Job(p, JobRunning, None, Some(now))], policies := s.policies[p := Policy(Running, None)],
            progress := s.progress[j := now], workers := s.workers + {j})
  }

  /** The worker leaves: its `finally` drops both registry entries. */
  ghost function Left(s: State, j: JobId): State {
    s.(progress := s.progress - {j}, procs := s.procs - {j}, workers := s.workers - {j})
  }

  function WithPolicy(policies: map<PolicyId, Policy>, p: PolicyId, to: Policy): map<PolicyId, Policy> {
    if p in policies then policies[p := to] else policies
  }

  /** A session that holds no error for the policy sends no update for it: an error written meanwhile stays. */
  function Cleared(policy: Policy, clears: bool): Policy {
    Policy(Completed, if clears then None else policy.error)
  }

  ghost function Succeeded(s: State, j: JobId, clears: bool): State
    requires j in s.jobs
  {
    var p := s.jobs[j].policy;
    Left(s.(jobs := s.jobs[j := s.jobs[j].(status := JobCompleted)],
            policies := if p in s.policies then s.policies[p := Cleared(s.policies[p], clears)] else s.policies), j)
  }

  predicate AlreadyClosed(job: Job) {
    job.status == JobFailed && job.kind.Some?
  }

  ghost function FailedBy(s: State, j: JobId): State
    requires j in s.jobs
  {
    var job := s.jobs[j];
    var p := job.policy;
    if AlreadyClosed(job) then
      Left(s.(policies := if p in s.policies then s.policies[p := s.policies[p].(status := Failed)] else s.policies), j)
    else
      Left(s.(jobs := s.jobs[j := job.(status := JobFailed, kind := Some(Error))],
              policies := WithPolicy(s.policies, p, Policy(Failed, Some(Text)))), j)
  }

  ghost function Reaped(s: State, limits: Limits, now: int): State {
    Culled(s, StuckJobs(s, limits, now))
  }

  ghost function Next(s: State, limits: Limits, e: Event): State
    requires Enabled(s, e)
  {
    match e
    case Start(p, found, j, now) => Begun(s, p, found, j, now)
    case Tick(j, now) => s.(progress := s.progress[j := now])
    case Register(j) => s.(procs := s.procs + {j})
    case Succeed(j, clears) => Succeeded(s, j, clears)
    case Fail(j) => FailedBy(s, j)
    case Reap(now) => Reaped(s, limits, now)
    case Boot => Swept(s, Zombies(s), Interrupted)
    case Crash => s.(progress := map[], procs := {}, workers := {})
  }

  // ---------------------------------------------------------------------------
  // The worker and the sweeps
  // ---------------------------------------------------------------------------

  class BackupService {
    const limits: Limits
    var jobs: map<JobId, Job>
    var policies: map<PolicyId, Policy>
    var progress: map<JobId, int>
    var procs: set<JobId>
    ghost var workers: set<JobId>

    ghost function Now(): State
      reads this
    {
      State(jobs, policies, progress, procs, workers)
    }

    /** The head of `execute_backup`, up to its first commit. */
    method StartBackup(p: PolicyId, accountFound: bool, j: JobId, now: int)
      requires j !in jobs
      modifies this
      ensures Now() == Next(old(Now()), limits, Start(p, accountFound, j, now))
    {
      if p !in policies {
        return;
      }
      if !accountFound {
        policies := policies[p := Policy(Failed, Some(NoAccount))];
        return;
      }
      jobs := jobs[j := Job(p, JobRunning, None, Some(now))];
      policies := policies[p := Policy(Running, None)];
      progress := progress[j := now];
      workers := workers + {j};
    }

    /** `_tick`: any message of restic is a heartbeat. */
    method OnTick(j: JobId, now: int)
      requires j in workers
      modifies this
      ensures Now() == Next(old(Now()), limits, Tick(j, now))
    {
      progress := progress[j := now];
    }

    method OnRegister(j: JobId)
      requires j in workers
      modifies this
      ensures Now() == Next(old(Now()), limits, Register(j))
    {
      procs := procs + {j};
    }

    method Leave(j: JobId)
      modifies this
      ensures Now() == Left(old(Now()), j)
    {
      progress := progress - {j};
      procs := procs - {j};
      workers := workers - {j};
    }

    /**
     * The success path of `execute_backup`; neither row is read again before it is written.
     * `clears`: the session holds an error for the policy, so clearing it is sent.
     */
    method OnSuccess(j: JobId, clears: bool)
      requires j in workers && j in jobs
      modifies this
      ensures Now() == Next(old(Now()), limits, Succeed(j, clears))
    {
      var p := jobs[j].policy;
      if p in policies {
        policies := policies[p := policies[p].(status := Completed)];
        if clears {
          policies := policies[p := policies[p].(error := None)];
        }
      }
      jobs := jobs[j := jobs[j].(status := JobCompleted)];
      Leave(j);
    }

    /** The except branch: a verdict already recorded is kept. */
    method OnFailure(j: JobId)
      requires j in workers && j in jobs
      modifies this
      ensures Now() == Next(old(Now()), limits, Fail(j))
    {
      var p, closed := jobs[j].policy, AlreadyClosed(jobs[j]);
      if p in policies {
        policies := policies[p := policies[p].(status := Failed)];
      }
      jobs := jobs[j := jobs[j].(status := JobFailed)];
      if !closed {
        if p in policies {
          policies := policies[p := policies[p].(error := Some(Text))];
        }
        jobs := jobs[j := jobs[j].(kind := Some(Error))];
      }
      Leave(j);
    }

    /** `_close_job`: closes the row and heals its policy, if that still says running. */
    method CloseJob(j: JobId, kind: FailureKind)
      requires j in jobs
      modifies this
      ensures Now() == Swept(old(Now()), {j}, kind)
    {
      jobs := jobs[j := jobs[j].(status := JobFailed, kind := Some(kind))];
      var p := jobs[j].policy;
      if p in policies && policies[p].status == Running {
        policies := policies[p := Policy(Failed, Some(Marker(kind)))];
      }
      assert Hit(old(Now()), {j}, p);
    }

    /** The machine goes down: everything in memory is gone, the rows stay. */
    method OnCrash()
      modifies this
      ensures Now() == Next(old(Now()), limits, Crash)
    {
      progress := map[];
      procs := {};
      workers := {};
    }

    /** `recover_zombie_backup_jobs`, row by row. */
    method BootSweep() returns (recovered: nat)
      modifies this
      ensures Now() == Next(old(Now()), limits, Boot)
      ensures recovered == |Zombies(old(Now()))|
    {
      ghost var s0 := Now();
      var todo := set j | j in jobs && jobs[j].status in {JobRunning, JobPending};
      ghost var done := {};
      recovered := 0;
      SweptNothing(s0, Interrupted);
      while todo != {}
        invariant Now() == Swept(s0, done, Interrupted) && recovered == |done|
        invariant forall j :: j in done + todo ==> j in s0.jobs
        invariant forall j :: j in done ==> j !in todo
        invariant forall j :: Zombie(s0, j) <==> j in done || (j in todo && j !in s0.procs)
        decreases |todo|
      {
        var j := Choose(todo);
        todo := todo - {j};
        if j !in procs {
          SweptOneMore(s0, done, j, Interrupted);
          CloseJob(j, Interrupted);
          done := done + {j};
          recovered := recovered + 1;
        }
      }
      assert done == Zombies(s0);
    }

    /** `recover_stalled_backup_jobs`, row by row. */
    method ReapStalled(now: int) returns (reaped: nat)
      modifies this
      ensures Now() == Next(old(Now()), limits, Reap(now))
      ensures reaped == |StuckJobs(old(Now()), limits, now)|
    {
      ghost var s0 := Now();
      var todo := set j | j in jobs && jobs[j].status == JobRunning;
      ghost var done := {};
      reaped := 0;
      CulledNothing(s0);
      while todo != {}
        invariant Now() == Culled(s0, done) && reaped == |done|
        invariant forall j :: j in todo ==> j in s0.jobs && s0.jobs[j].status == JobRunning && j !in done
        invariant forall j :: j in done ==> Stuck(s0, limits, now, j)
        invariant forall j :: Stuck(s0, limits, now, j) ==> j in done || j in todo
        decreases |todo|
      {
        var j := Choose(todo);
        todo := todo - {j};
        StuckStays(s0, done, j, limits, now);
        var stuck := IsStuck(j, now);
        if stuck {
          CulledOneMore(s0, done, j);
          Cull(j);
          done := done + {j};
          reaped := reaped + 1;
        }
      }
      assert done == StuckJobs(s0, limits, now);
    }

    method IsStuck(j: JobId, now: int) returns (stuck: bool)
      requires j in jobs && jobs[j].status == JobRunning
      ensures stuck <==> Stuck(Now(), limits, now, j)
    {
      if jobs[j].started.None? {
        return false;
      }
      if now - jobs[j].started.value < limits.grace {
        return false;
      }
      var freshTick := j in progress && now - progress[j] < limits.threshold;
      return !freshTick;
    }

    method Cull(j: JobId)
      requires j in jobs
      modifies this
      ensures Now() == Culled(old(Now()), {j})
    {
      CloseJob(j, Stalled);
      progress := progress - {j};
      procs := procs - {j};
    }
  }

  ghost function Culled(s: State, doomed: set<JobId>): State {
    Swept(s, doomed, Stalled).(progress := s.progress - doomed, procs := s.procs - doomed)
  }

  lemma SweptNothing(s: State, kind: FailureKind)
    ensures Swept(s, {}, kind) == s
  {
    assert Swept(s, {}, kind).jobs == s.jobs;
    assert Swept(s, {}, kind).policies == s.policies;
  }

  lemma SweptOneMore(s: State, doomed: set<JobId>, j: JobId, kind: FailureKind)
    requires j in s.jobs
    ensures Swept(Swept(s, doomed, kind), {j}, kind) == Swept(s, doomed + {j}, kind)
  {
    var once, twice, both := Swept(s, doomed, kind), Swept(Swept(s, doomed, kind), {j}, kind), Swept(s, doomed + {j}, kind);
    assert twice.jobs == both.jobs;
    forall p | p in s.policies ensures Hit(s, doomed + {j}, p) <==> Hit(s, doomed, p) || Hit(once, {j}, p) {
      if s.jobs[j].policy == p {
        assert Hit(s, doomed + {j}, p);
        assert Hit(once, {j}, p);
      }
      if Hit(s, doomed, p) {
        var i :| i in doomed && i in s.jobs && s.jobs[i].policy == p;
        assert i in doomed + {j};
      }
    }
    assert twice.policies == both.policies;
  }

  lemma CulledNothing(s: State)
    ensures Culled(s, {}) == s
  {
    SweptNothing(s, Stalled);
    assert s.progress - {} == s.progress;
    assert s.procs - {} == s.procs;
  }

  lemma CulledOneMore(s: State, doomed: set<JobId>, j: JobId)
    requires j in s.jobs
    ensures Culled(Culled(s, doomed), {j}) == Culled(s, doomed + {j})
  {
    SweptOneMore(s, doomed, j, Stalled);
    var once := Culled(s, doomed);
    assert once.progress - {j} == s.progress - (doomed + {j});
    assert once.procs - {j} == s.procs - (doomed + {j});
    SweptIgnoresMemory(Swept(s, doomed, Stalled), once, {j});
  }

  lemma SweptIgnoresMemory(a: State, b: State, doomed: set<JobId>)
    requires a.jobs == b.jobs && a.policies == b.policies
    ensures Swept(a, doomed, Stalled).jobs == Swept(b, doomed, Stalled).jobs
    ensures Swept(a, doomed, Stalled).policies == Swept(b, doomed, Stalled).policies
  {
    forall p ensures Hit(a, doomed, p) <==> Hit(b, doomed, p) {
    }
  }

  lemma StuckStays(s: State, done: set<JobId>, j: JobId, limits: Limits, now: int)
    requires j in s.jobs && j !in done
    ensures j in Culled(s, done).jobs && Culled(s, done).jobs[j] == s.jobs[j]
    ensures Stuck(Culled(s, done), limits, now, j) <==> Stuck(s, limits, now, j)
  {
  }
}
