/**
 * The status ladder (services/mailbox_status.py) next to the guards of the agent's sync trigger
 * (routers/agent.py).
 */
module MailboxStatus {
  import opened Wrappers

  datatype SyncState = Idle | Syncing | SyncError | NeedsReauth
  datatype AuthType = OAuth2 | AppPassword | OtherAuth

  /** No schedule, one that cannot be read, or one whose next two fire times are `gap` apart. */
  datatype Schedule = Manual | Unreadable | Every(gap: int)

  /** What an error text says: the token refresh failed, the credentials are wrong, anything else, or none. */
  datatype ErrorText = NoText | RefreshFailed | BadCredentials(text: int) | Other(text: int)

  datatype Account = Account(
    migrating: bool, suspended: bool, authenticated: bool, state: SyncState, auth: AuthType, lastError: ErrorText,
    createdAt: Option<int>, initialDoneAt: Option<int>, initialTotal: Option<nat>, lastSync: Option<int>,
    schedule: Schedule, pausedUntil: Option<int>, pauseReason: Option<string>)

  /** The latest finished job. */
  datatype Job = Job(failed: bool, signalled: bool, classified: bool, log: ErrorText, startedAt: Option<int>, completedAt: Option<int>)

  datatype Tone = OkTone | ActiveTone | AttentionTone | ErrorTone | MutedTone
  datatype State =
    | Migrating | Suspended | SignInNeeded | FirstSync | SyncingNow | Paused | Stopped | Failed
    | InitialSync | InitialStalled | Waiting | Stale | Current
  datatype Action = Reconnect | UpdatePassword | Retry | SyncNow

  datatype Status = Status(state: State, tone: Tone, action: Option<Action>, attention: bool, age: Option<int>)

  const DAY := 86400
  const STALE_AFTER := 7 * DAY

  function StaleThreshold(s: Schedule): (t: int)
    ensures t >= STALE_AFTER
  {
    if s.Every? && 2 * s.gap > STALE_AFTER then 2 * s.gap else STALE_AFTER
  }

  /** `pause_reason or None`: an empty reason counts as none here. */
  function Reason(a: Account): Option<string> {
    if a.pauseReason == Some("") then None else a.pauseReason
  }

  function LastActivity(a: Account, job: Option<Job>): Option<int> {
    if job.Some? && job.value.startedAt.Some? then
      (if job.value.completedAt.Some? then job.value.completedAt else job.value.startedAt)
    else a.createdAt
  }

  predicate Old(t: Option<int>, a: Account, now: int) {
    t.Some? && t.value < now - StaleThreshold(a.schedule)
  }

  predicate LongUnsynced(a: Account, job: Option<Job>, now: int) {
    !a.schedule.Manual? && (if a.initialDoneAt.Some? then Old(a.lastSync, a, now) else Old(LastActivity(a, job), a, now))
  }

  predicate SignedIn(a: Account) {
    a.authenticated && a.state != NeedsReauth && !(a.state == SyncError && a.auth == OAuth2 && a.lastError == RefreshFailed)
  }

  /** A user stopped the last run, and nothing has failed since. */
  predicate StoppedJob(a: Account, job: Option<Job>) {
    job.Some? && job.value.failed && job.value.signalled && !job.value.classified && a.lastError == job.value.log
  }

  // ---------------------------------------------------------------------------
  // The trigger
  // ---------------------------------------------------------------------------

  datatype Refusal = AccountSuspended | AccountMigrating | OwnerMigrating | PauseInForce

  /** The guards of `trigger_sync`, in order. */
  method TriggerSync(a: Account, owners: seq<bool>) returns (refusal: Option<Refusal>)
    ensures refusal.None? <==> Accepts(a, true in owners)
    ensures refusal == Some(AccountSuspended) <==> a.suspended
    ensures refusal == Some(AccountMigrating) <==> a.migrating && !a.suspended
    ensures refusal == Some(OwnerMigrating) <==> true in owners && !a.migrating && !a.suspended
    ensures refusal == Some(PauseInForce) <==>
              (a.pausedUntil.Some? || a.pauseReason.Some?) && true !in owners && !a.migrating && !a.suspended
  {
    if a.suspended {
      return Some(AccountSuspended);
    }
    if a.migrating {
      return Some(AccountMigrating);
    }
    for i := 0 to |owners|
      invariant true !in owners[..i]
    {
      if owners[i] {
        return Some(OwnerMigrating);
      }
    }
    if a.pausedUntil.Some? || a.pauseReason.Some? {
      return Some(PauseInForce);
    }
    return None;
  }

  predicate Accepts(a: Account, ownerMigrating: bool) {
    !a.suspended && !a.migrating && !ownerMigrating && a.pausedUntil.None? && a.pauseReason.None?
  }

  // ---------------------------------------------------------------------------
  // The ladder
  // ---------------------------------------------------------------------------

  predicate Quiet(s: State) {
    s == InitialSync || s == Waiting || s == Current
  }

  predicate Offers(r: Status) {
    r.action == Some(Retry) || r.action == Some(SyncNow)
  }

  /**
   * `resolve_mailbox_status`. A sync is offered exactly in the states that ask for one, when the
   * trigger would take it; an error is never quiet; only a failure is red; a stale mailbox has a
   * last success to date.
   */
  function Resolve(a: Account, job: Option<Job>, live: bool, ownerMigrating: bool, now: int): (r: Status)
    ensures Offers(r) ==> Accepts(a, ownerMigrating)
    ensures r.state in {Stale, InitialStalled} ==> (Offers(r) <==> Accepts(a, ownerMigrating))
    ensures r.state == Failed ==> (Offers(r) <==> Accepts(a, ownerMigrating) && r.action != Some(UpdatePassword))
    ensures a.state == SyncError ==> !Quiet(r.state)
    ensures r.tone == ErrorTone <==> r.state == Failed
    ensures r.attention <==> r.state in {SignInNeeded, Failed, Stale, InitialStalled}
    ensures r.state == Stale ==> r.age.Some? && r.age.value >= 7
    ensures Quiet(r.state) ==> !LongUnsynced(a, job, now) && a.state == Idle
  {
    var isError := a.state == SyncError;
    var initialDone := a.initialDoneAt.Some?;
    var blocked := a.pausedUntil.Some? || a.pauseReason.Some?;
    var long := LongUnsynced(a, job, now);
    var started := live || a.initialTotal.Some? || (job.Some? && job.value.startedAt.Some?);
    if a.migrating || ownerMigrating then Status(Migrating, ActiveTone, None, false, None)
    else if a.suspended then Status(Suspended, MutedTone, None, false, None)
    else if !SignedIn(a) then Status(SignInNeeded, AttentionTone, Some(Reconnect), true, None)
    else if a.state == Syncing then Status(if initialDone then SyncingNow else FirstSync, ActiveTone, None, false, None)
    else if isError && StoppedJob(a, job) && !long then Status(Stopped, MutedTone, None, false, None)
    else if isError && Reason(a).None? && !StoppedJob(a, job) then
      Status(Failed, ErrorTone,
             if a.auth == AppPassword && a.lastError.BadCredentials? then Some(UpdatePassword) else if blocked then None else Some(Retry),
             true, None)
    else if long then
      var action := if blocked then None else Some(SyncNow);
      if initialDone then Status(Stale, AttentionTone, action, true, Some((now - a.lastSync.value) / DAY))
      else Status(InitialStalled, AttentionTone, action, true, None)
    else if Reason(a).Some? then Status(Paused, ActiveTone, None, false, None)
    else if !initialDone then
      (if started then Status(InitialSync, ActiveTone, None, false, None) else Status(Waiting, MutedTone, None, false, None))
    else Status(Current, OkTone, None, false, None)
  }

  // ---------------------------------------------------------------------------
  // What each answer tells
  // ---------------------------------------------------------------------------

  predicate Migrates(a: Account, ownerMigrating: bool) {
    a.migrating || ownerMigrating
  }

  /** Nobody but the user can help: the account is locked, or it has to be signed in again. */
  predicate Barred(a: Account, ownerMigrating: bool) {
    || Migrates(a, ownerMigrating) || a.suspended || !a.authenticated || a.state == NeedsReauth
    || (a.state == SyncError && a.auth == OAuth2 && a.lastError == RefreshFailed)
  }

  /** An error that the user caused by stopping the run, not the run itself. */
  predicate StoppedByUser(a: Account, job: Option<Job>) {
    match job
    case None => false
    case Some(j) => a.state == SyncError && j.failed && j.signalled && !j.classified && j.log == a.lastError
  }

  predicate HasReason(a: Account) {
    a.pauseReason.Some? && a.pauseReason.value != ""
  }

  /** The last sign of progress: the last success, or before the first one the last run, or the creation. */
  function LastSign(a: Account, job: Option<Job>): Option<int> {
    if a.initialDoneAt.Some? then a.lastSync
    else
      match job
      case Some(Job(_, _, _, _, Some(startedAt), Some(completedAt))) => Some(completedAt)
      case Some(Job(_, _, _, _, Some(startedAt), None)) => Some(startedAt)
      case _ => a.createdAt
  }

  /** A scheduled mailbox without a sign of progress for over a week, and for over two rounds. */
  predicate Overdue(a: Account, job: Option<Job>, now: int) {
    && a.schedule != Manual && LastSign(a, job).Some?
    && now - LastSign(a, job).value > 7 * DAY
    && (a.schedule.Every? ==> now - LastSign(a, job).value > 2 * a.schedule.gap)
  }

  lemma OverdueMeans(a: Account, job: Option<Job>, now: int)
    ensures LongUnsynced(a, job, now) <==> Overdue(a, job, now)
  {
  }

  lemma BarredMeans(a: Account, job: Option<Job>, ownerMigrating: bool)
    ensures Barred(a, ownerMigrating) <==> a.migrating || ownerMigrating || a.suspended || !SignedIn(a)
    ensures StoppedByUser(a, job) <==> a.state == SyncError && StoppedJob(a, job)
    ensures HasReason(a) <==> Reason(a).Some?
  {
  }

  /** The account is locked, waits for a sign-in, or is at work: each state exactly when it is so. */
  lemma BarredStates(a: Account, job: Option<Job>, live: bool, ownerMigrating: bool, now: int)
    ensures var s := Resolve(a, job, live, ownerMigrating, now).state;
            && (s == Migrating <==> Migrates(a, ownerMigrating))
            && (s == Suspended <==> a.suspended && !Migrates(a, ownerMigrating))
            && (s == SignInNeeded <==> Barred(a, ownerMigrating) && !Migrates(a, ownerMigrating) && !a.suspended)
            && (s == FirstSync <==> !Barred(a, ownerMigrating) && a.state == Syncing && a.initialDoneAt.None?)
            && (s == SyncingNow <==> !Barred(a, ownerMigrating) && a.state == Syncing && a.initialDoneAt.Some?)
  {
    BarredMeans(a, job, ownerMigrating);
  }

  /** Otherwise the last run decides, then how long ago something was copied, then a pause. */
  lemma OpenStates(a: Account, job: Option<Job>, live: bool, ownerMigrating: bool, now: int)
    requires !Barred(a, ownerMigrating) && a.state != Syncing
    ensures var s, overdue, broken := Resolve(a, job, live, ownerMigrating, now).state, Overdue(a, job, now),
                                      a.state == SyncError && !StoppedByUser(a, job) && !HasReason(a);
            && (s == Stopped <==> StoppedByUser(a, job) && !overdue)
            && (s == Failed <==> broken)
            && (s == Stale <==> overdue && !broken && a.initialDoneAt.Some?)
            && (s == InitialStalled <==> overdue && !broken && a.initialDoneAt.None?)
            && (s == Paused <==> HasReason(a) && !overdue && !StoppedByUser(a, job))
            && (s == Current <==> a.state == Idle && !overdue && !HasReason(a) && a.initialDoneAt.Some?)
            && (s == Waiting <==> a.state == Idle && !overdue && !HasReason(a) && a.initialDoneAt.None? && !Started(a, job, live))
            && (s == InitialSync <==> a.state == Idle && !overdue && !HasReason(a) && a.initialDoneAt.None? && Started(a, job, live))
  {
    BarredMeans(a, job, ownerMigrating);
    OverdueMeans(a, job, now);
  }

  /** There is any sign of a first sync. */
  predicate Started(a: Account, job: Option<Job>, live: bool) {
    match job
    case Some(Job(_, _, _, _, Some(startedAt), _)) => true
    case _ => live || a.initialTotal.Some?
  }

  /** The tone goes with the state, and so do the action and the age. */
  lemma StatesTell(a: Account, job: Option<Job>, live: bool, ownerMigrating: bool, now: int)
    ensures var r := Resolve(a, job, live, ownerMigrating, now);
            && (r.tone == OkTone <==> r.state == Current)
            && (r.tone == MutedTone <==> r.state == Suspended || r.state == Stopped || r.state == Waiting)
            && (r.tone == AttentionTone <==> r.state == SignInNeeded || r.state == Stale || r.state == InitialStalled)
            && (r.action == Some(Reconnect) <==> r.state == SignInNeeded)
            && (r.action == Some(UpdatePassword) <==> r.state == Failed && a.auth == AppPassword && a.lastError.BadCredentials?)
            && (r.action == Some(SyncNow) <==> (r.state == Stale || r.state == InitialStalled) && Accepts(a, ownerMigrating))
            && (r.age.Some? <==> r.state == Stale)
            && (r.age.Some? ==> a.lastSync.Some? && DAY * r.age.value <= now - a.lastSync.value < DAY * (r.age.value + 1))
  {
  }

  /** What the ladder offers, the trigger takes. */
  method OfferedSyncIsTaken(a: Account, job: Option<Job>, live: bool, owners: seq<bool>, now: int) returns (refusal: Option<Refusal>)
    requires Offers(Resolve(a, job, live, true in owners, now))
    ensures refusal.None?
  {
    refusal := TriggerSync(a, owners);
  }
}
