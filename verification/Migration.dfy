/**
 * Moving an account's maildir or a user's home to another store: copy, verify by file
 * count, switch the pointer, delete the old directory. A crash, a cancel or an exception
 * may fall between any two steps; at boot an unfinished migration starts again from the top.
 */
module Migration {
  import opened Wrappers
  import opened CopyTree

  type Loc = string
  type Contents = map<Path, Data>

  datatype Kind = AccountMove | HomeMove
  datatype Status = Pending | Copying | Verifying | Cleaning | Completed | Failed
  datatype Record = Record(source: Loc, target: Loc, status: Status)

  /** Where the worker thread is; it is lost in a crash, the rows are not. */
  datatype Worker =
    | NoWorker
    | CopyingFiles(source: Loc, todo: set<Path>)
    | CopiedAll(source: Loc)
    | Checked(source: Loc)
    | ToSwitch(source: Loc)
    | Deleting(source: Loc)

  /**
   * `pointer` is the committed `maildir_path`, or the home that `store_id` names. `mail` is what
   * the pointer's directory held when no migration was under way, `agreed` whether every target
   * since then held nothing different under the same path, and `selfDelete` whether an attempt
   * went into its delete phase with its target for a source.
   */
  datatype State = State(
    pointer: Loc, migrating: bool, record: Option<Record>, disk: map<Loc, Contents>,
    worker: Worker, cancel: bool, mail: Contents, agreed: bool, selfDelete: bool)

  datatype Event =
    | LiveChange(files: Contents)
    | Initiate(target: Loc)
    | Begin
    | CopyOne(path: Path)
    | CopyDone
    | VerifyOk
    | VerifyFail
    | StartClean
    | Switch
    | DeleteOne(path: Path)
    | DeleteDir
    | Complete
    | RequestCancel
    | SeeCancel
    | Raise
    | Crash

  function Held(s: State, l: Loc): Contents {
    if l in s.disk then s.disk[l] else map[]
  }

  function Target(s: State): Loc
    requires s.record.Some?
  {
    s.record.value.target
  }

  /** The account path is read again at every start, the home path comes from the migration row. */
  function SourceNow(kind: Kind, s: State): Loc
    requires s.record.Some?
  {
    if kind == AccountMove then s.pointer else s.record.value.source
  }

  predicate Agree(a: Contents, b: Contents) {
    forall p :: p in a && p in b ==> a[p] == b[p]
  }

  predicate Enabled(kind: Kind, s: State, e: Event) {
    match e
    case LiveChange(files) => !s.migrating && s.worker.NoWorker?
    case Initiate(target) => !s.migrating && s.worker.NoWorker? && target != s.pointer
    case Begin => s.worker.NoWorker? && s.record.Some? && s.record.value.status in {Pending, Copying, Verifying, Cleaning}
    case CopyOne(p) => s.worker.CopyingFiles? && s.record.Some? && p in s.worker.todo && p in Held(s, s.worker.source)
    case CopyDone => s.worker.CopyingFiles? && s.record.Some? && s.worker.todo == {}
    case VerifyOk => s.worker.CopiedAll? && s.record.Some? && !s.cancel && |Held(s, s.worker.source)| == |Held(s, Target(s))|
    case VerifyFail => s.worker.CopiedAll? && s.record.Some? && !s.cancel && |Held(s, s.worker.source)| != |Held(s, Target(s))|
    case StartClean => s.worker.Checked? && s.record.Some? && !s.cancel
    case Switch => s.worker.ToSwitch? && s.record.Some?
    case DeleteOne(p) => s.worker.Deleting? && s.worker.source in s.disk && p in s.disk[s.worker.source]
    case DeleteDir => s.worker.Deleting? && s.worker.source in s.disk && s.disk[s.worker.source] == map[]
    case Complete => s.worker.Deleting? && s.record.Some?
    case RequestCancel => s.record.Some?
    case SeeCancel => s.cancel && s.record.Some? && (s.worker.CopyingFiles? || s.worker.CopiedAll? || s.worker.Checked?)
    case Raise => !s.worker.NoWorker? && s.record.Some?
    case Crash => true
  }

  function WithStatus(s: State, status: Status): State
    requires s.record.Some?
  {
    s.(record := Some(s.record.value.(status := status)))
  }

  function Next(kind: Kind, s: State, e: Event): State
    requires Enabled(kind, s, e)
  {
    match e
    case LiveChange(files) =>
      s.(disk := s.disk[s.pointer := files], mail := files, agreed := true, selfDelete := false)
    case Initiate(target) =>
      s.(migrating := true, record := Some(Record(s.pointer, target, Pending)),
         agreed := s.agreed && Agree(Held(s, s.pointer), Held(s, target)))
    case Begin =>
      var src, s := SourceNow(kind, s), WithStatus(s, Copying);
      if src in s.disk
      then s.(disk := s.disk[Target(s) := Held(s, Target(s))], worker := CopyingFiles(src, s.disk[src].Keys))
      else s.(worker := Checked(src))
    case CopyOne(p) =>
      var target := Held(s, Target(s));
      s.(disk := s.disk[Target(s) := if p in target then target else target[p := Held(s, s.worker.source)[p]]],
         worker := CopyingFiles(s.worker.source, s.worker.todo - {p}))
    case CopyDone => WithStatus(s, Verifying).(worker := CopiedAll(s.worker.source))
    case VerifyOk => s.(worker := Checked(s.worker.source))
    case VerifyFail => WithStatus(s, Failed).(worker := NoWorker, cancel := false)
    case StartClean => WithStatus(s, Cleaning).(worker := ToSwitch(s.worker.source))
    case Switch =>
      s.(pointer := Target(s), worker := Deleting(s.worker.source), selfDelete := s.selfDelete || s.worker.source == Target(s))
    case DeleteOne(p) => s.(disk := s.disk[s.worker.source := s.disk[s.worker.source] - {p}])
    case DeleteDir => s.(disk := s.disk - {s.worker.source})
    case Complete => WithStatus(s, Completed).(migrating := false, worker := NoWorker, cancel := false)
    case RequestCancel => s.(cancel := true)
    case SeeCancel => WithStatus(s, Failed).(migrating := false, worker := NoWorker, cancel := false)
    case Raise => WithStatus(s, Failed).(worker := NoWorker, cancel := false)
    case Crash => s.(worker := NoWorker, cancel := false)
  }

  // ---------------------------------------------------------------------------
  // Mail is never lost
  // ---------------------------------------------------------------------------

  /** The directory the row names holds every file, with its content when no target disagreed. */
  ghost predicate Kept(s: State) {
    && s.mail.Keys <= Held(s, s.pointer).Keys
    && (s.agreed ==> forall p :: p in s.mail ==> Held(s, s.pointer)[p] == s.mail[p])
  }

  ghost predicate Active(s: State) {
    s.record.Some? && s.record.value.status in {Pending, Copying, Verifying, Cleaning}
  }

  /** What the worker's position says about the two directories. */
  ghost predicate WorkerAt(s: State) {
    match s.worker
    case NoWorker => true
    case CopyingFiles(src, todo) => Held(s, src).Keys <= Held(s, Target'(s)).Keys + todo
    case CopiedAll(src) => Held(s, src).Keys <= Held(s, Target'(s)).Keys
    case Checked(src) => Held(s, src).Keys <= Held(s, Target'(s)).Keys
    case ToSwitch(src) => Held(s, src).Keys <= Held(s, Target'(s)).Keys
    case Deleting(src) => s.pointer == Target'(s) && (src == Target'(s) ==> s.selfDelete)
  }

  ghost function Target'(s: State): Loc {
    if s.record.Some? then s.record.value.target else s.pointer
  }

  ghost predicate WorkerSource(kind: Kind, s: State, src: Loc) {
    && s.record.Some? && Active(s) && s.migrating
    && (src == s.record.value.source || (kind == AccountMove && src == s.record.value.target && s.pointer == src))
  }

  ghost predicate Inv(kind: Kind, s: State) {
    && (Active(s) ==> s.migrating && s.record.value.source != s.record.value.target && s.pointer in {s.record.value.source, s.record.value.target})
    && (!s.worker.NoWorker? ==> WorkerSource(kind, s, s.worker.source))
    && WorkerAt(s)
    && (Active(s) && s.agreed ==> Agree(Held(s, s.record.value.source), Held(s, s.record.value.target)))
    && (kind == HomeMove ==> !s.selfDelete)
    && (!s.selfDelete ==> Kept(s))
  }

  lemma LiveInv(kind: Kind, s: State, e: Event)
    requires Inv(kind, s) && Enabled(kind, s, e) && (e.LiveChange? || e.Initiate?)
    ensures Inv(kind, Next(kind, s, e))
  {
  }

  lemma BeginCopyInv(kind: Kind, s: State)
    requires Inv(kind, s) && Enabled(kind, s, Begin) && SourceNow(kind, s) in s.disk
    ensures Inv(kind, Next(kind, s, Begin))
  {
    assert forall l :: Held(Next(kind, s, Begin), l) == Held(s, l);
  }

  lemma BeginSkipInv(kind: Kind, s: State)
    requires Inv(kind, s) && Enabled(kind, s, Begin) && SourceNow(kind, s) !in s.disk
    ensures Inv(kind, Next(kind, s, Begin))
  {
    assert forall l :: Held(Next(kind, s, Begin), l) == Held(s, l);
  }

  lemma BeginInv(kind: Kind, s: State)
    requires Inv(kind, s) && Enabled(kind, s, Begin)
    ensures Inv(kind, Next(kind, s, Begin))
  {
    if SourceNow(kind, s) in s.disk {
      BeginCopyInv(kind, s);
    } else {
      BeginSkipInv(kind, s);
    }
  }

  lemma CopyInv(kind: Kind, s: State, p: Path)
    requires Inv(kind, s) && Enabled(kind, s, CopyOne(p))
    ensures Inv(kind, Next(kind, s, CopyOne(p)))
  {
    var s' := Next(kind, s, CopyOne(p));
    assert forall l :: l != Target(s) ==> Held(s', l) == Held(s, l);
  }

  lemma DeleteInv(kind: Kind, s: State, e: Event)
    requires Inv(kind, s) && Enabled(kind, s, e) && (e.DeleteOne? || e.DeleteDir?)
    ensures Inv(kind, Next(kind, s, e))
  {
    var s' := Next(kind, s, e);
    assert forall l :: l != s.worker.source ==> Held(s', l) == Held(s, l);
  }

  lemma SwitchInv(kind: Kind, s: State)
    requires Inv(kind, s) && Enabled(kind, s, Switch)
    ensures Inv(kind, Next(kind, s, Switch))
  {
    assert forall l :: Held(Next(kind, s, Switch), l) == Held(s, l);
  }

  lemma VerifyInv(kind: Kind, s: State)
    requires Inv(kind, s) && Enabled(kind, s, VerifyOk)
    ensures Inv(kind, Next(kind, s, VerifyOk))
  {
    assert forall l :: Held(Next(kind, s, VerifyOk), l) == Held(s, l);
  }

  lemma AdvanceInv(kind: Kind, s: State, e: Event)
    requires Inv(kind, s) && Enabled(kind, s, e) && (e.CopyDone? || e.StartClean?)
    ensures Inv(kind, Next(kind, s, e))
  {
    assert forall l :: Held(Next(kind, s, e), l) == Held(s, l);
  }

  lemma PauseInv(kind: Kind, s: State, e: Event)
    requires Inv(kind, s) && Enabled(kind, s, e) && (e.RequestCancel? || e.Crash?)
    ensures Inv(kind, Next(kind, s, e))
  {
    assert forall l :: Held(Next(kind, s, e), l) == Held(s, l);
  }

  lemma StoppedInv(kind: Kind, s: State, s': State)
    requires Inv(kind, s) && !Active(s') && s'.worker.NoWorker?
    requires s'.disk == s.disk && s'.pointer == s.pointer && s'.mail == s.mail
    requires s'.agreed == s.agreed && s'.selfDelete == s.selfDelete
    ensures Inv(kind, s')
  {
    assert Held(s', s'.pointer) == Held(s, s.pointer);
  }

  lemma StopInv(kind: Kind, s: State, e: Event)
    requires Inv(kind, s) && Enabled(kind, s, e) && (e.VerifyFail? || e.SeeCancel? || e.Raise? || e.Complete?)
    ensures Inv(kind, Next(kind, s, e))
  {
    StoppedInv(kind, s, Next(kind, s, e));
  }

  lemma StepInv(kind: Kind, s: State, e: Event)
    requires Inv(kind, s) && Enabled(kind, s, e)
    ensures Inv(kind, Next(kind, s, e))
  {
    match e {
      case LiveChange(_) => LiveInv(kind, s, e);
      case Initiate(_) => LiveInv(kind, s, e);
      case Begin => BeginInv(kind, s);
      case CopyOne(p) => CopyInv(kind, s, p);
      case DeleteOne(_) => DeleteInv(kind, s, e);
      case DeleteDir => DeleteInv(kind, s, e);
      case Switch => SwitchInv(kind, s);
      case CopyDone => AdvanceInv(kind, s, e);
      case VerifyOk => VerifyInv(kind, s);
      case StartClean => AdvanceInv(kind, s, e);
      case RequestCancel => PauseInv(kind, s, e);
      case Crash => PauseInv(kind, s, e);
      case _ => StopInv(kind, s, e);
    }
  }

  // ---------------------------------------------------------------------------
  // Whole runs
  // ---------------------------------------------------------------------------

  predicate Initial(s: State) {
    && !s.migrating && s.record.None? && s.worker.NoWorker? && !s.cancel
    && s.mail == Held(s, s.pointer) && s.agreed && !s.selfDelete
  }

  predicate Can(kind: Kind, s: State, es: seq<Event>)
    decreases |es|
  {
    es != [] ==> Enabled(kind, s, es[0]) && Can(kind, Next(kind, s, es[0]), es[1..])
  }

  function After(kind: Kind, s: State, es: seq<Event>): State
    requires Can(kind, s, es)
    decreases |es|
  {
    if es == [] then s else After(kind, Next(kind, s, es[0]), es[1..])
  }

  /** No attempt of the run starts with its target for a source. */
  predicate Separate(kind: Kind, s: State, es: seq<Event>)
    requires Can(kind, s, es)
    decreases |es|
  {
    es != [] ==>
      && (es[0].Begin? ==> SourceNow(kind, s) != Target(s))
      && Separate(kind, Next(kind, s, es[0]), es[1..])
  }

  ghost predicate Clean(s: State) {
    !s.selfDelete && (!s.worker.NoWorker? ==> s.worker.source != Target'(s))
  }

  lemma StepClean(kind: Kind, s: State, e: Event)
    requires Inv(kind, s) && Enabled(kind, s, e) && Clean(s)
    requires e.Begin? ==> SourceNow(kind, s) != Target(s)
    ensures Clean(Next(kind, s, e))
  {
  }

  lemma {:induction false} RunInv(kind: Kind, s: State, es: seq<Event>)
    requires Inv(kind, s) && Can(kind, s, es)
    ensures Inv(kind, After(kind, s, es))
    decreases |es|
  {
    if es != [] {
      StepInv(kind, s, es[0]);
      RunInv(kind, Next(kind, s, es[0]), es[1..]);
    }
  }

  lemma {:induction false} RunClean(kind: Kind, s: State, es: seq<Event>)
    requires Inv(kind, s) && Clean(s) && Can(kind, s, es) && Separate(kind, s, es)
    ensures Clean(After(kind, s, es))
    decreases |es|
  {
    if es != [] {
      StepInv(kind, s, es[0]);
      StepClean(kind, s, es[0]);
      RunClean(kind, Next(kind, s, es[0]), es[1..]);
    }
  }

  /** Whatever is interleaved, crashed, cancelled or resumed, the home the user row names holds its mail. */
  lemma HomeNeverLosesMail(s: State, es: seq<Event>)
    requires Initial(s) && Can(HomeMove, s, es)
    ensures Kept(After(HomeMove, s, es))
  {
    RunInv(HomeMove, s, es);
  }

  /** The same for accounts, as long as no attempt starts once the row already names the target. */
  lemma AccountKeepsMail(s: State, es: seq<Event>)
    requires Initial(s) && Can(AccountMove, s, es) && Separate(AccountMove, s, es)
    ensures Kept(After(AccountMove, s, es))
  {
    RunInv(AccountMove, s, es);
    RunClean(AccountMove, s, es);
  }

  predicate Working(e: Event) {
    !(e.Crash? || e.Raise? || e.SeeCancel? || e.VerifyFail? || e.Complete?)
  }

  /** One attempt at work: a self-deletion can only be its own. */
  ghost predicate Attempt(s: State, source: Loc, target: Loc, mail: Contents) {
    && !s.worker.NoWorker? && s.worker.source == source
    && s.record.Some? && Target(s) == target && s.mail == mail
    && (s.selfDelete ==> source == target)
  }

  lemma StepFixed(kind: Kind, s: State, e: Event, source: Loc, target: Loc, mail: Contents)
    requires Inv(kind, s) && Enabled(kind, s, e) && Working(e) && Attempt(s, source, target, mail)
    ensures Attempt(Next(kind, s, e), source, target, mail)
  {
  }

  /** While one attempt works, its source, its target and the mail at stake do not change. */
  lemma {:induction false} AttemptFixed(kind: Kind, s: State, es: seq<Event>, source: Loc, target: Loc, mail: Contents)
    requires Inv(kind, s) && Can(kind, s, es) && Attempt(s, source, target, mail) && forall e :: e in es ==> Working(e)
    ensures Inv(kind, After(kind, s, es)) && Attempt(After(kind, s, es), source, target, mail)
    decreases |es|
  {
    if es != [] {
      StepInv(kind, s, es[0]);
      StepFixed(kind, s, es[0], source, target, mail);
      AttemptFixed(kind, Next(kind, s, es[0]), es[1..], source, target, mail);
    }
  }

  lemma AttemptEnds(kind: Kind, d: State, source: Loc, target: Loc, mail: Contents)
    requires Inv(kind, d) && Attempt(d, source, target, mail) && d.worker.Deleting? && source !in d.disk
    ensures Enabled(kind, d, Complete)
    ensures Kept(Next(kind, d, Complete)) <==> source != target || mail == map[]
  {
    assert Held(Next(kind, d, Complete), d.pointer) == Held(d, d.pointer);
    assert mail != map[] ==> mail.Keys != {};
  }

  lemma AttemptCompletes(kind: Kind, s: State, work: seq<Event>, source: Loc, target: Loc, mail: Contents)
    requires Inv(kind, s) && Can(kind, s, work) && Attempt(s, source, target, mail) && forall e :: e in work ==> Working(e)
    requires var d := After(kind, s, work); d.worker.Deleting? && d.worker.source !in d.disk
    ensures var d := After(kind, s, work);
            Enabled(kind, d, Complete) && (Kept(Next(kind, d, Complete)) <==> source != target || mail == map[])
  {
    AttemptFixed(kind, s, work, source, target, mail);
    AttemptEnds(kind, After(kind, s, work), source, target, mail);
  }

  lemma AttemptBegins(kind: Kind, s: State)
    requires !s.selfDelete && Enabled(kind, s, Begin)
    ensures Attempt(Next(kind, s, Begin), SourceNow(kind, s), Target(s), s.mail)
  {
  }

  /**
   * An attempt that runs to its end and whose deletion finishes keeps the mail exactly when it
   * did not start with its target for a source (or there was no mail). The condition is on the
   * state before the attempt: `maildir_path != target_path`.
   */
  lemma CompletedAttempt(kind: Kind, s: State, work: seq<Event>)
    requires Inv(kind, s) && !s.selfDelete && Enabled(kind, s, Begin)
    requires Can(kind, Next(kind, s, Begin), work) && forall e :: e in work ==> Working(e)
    requires var d := After(kind, Next(kind, s, Begin), work); d.worker.Deleting? && d.worker.source !in d.disk
    ensures var d := After(kind, Next(kind, s, Begin), work);
            Enabled(kind, d, Complete) && (Kept(Next(kind, d, Complete)) <==> SourceNow(kind, s) != Target(s) || s.mail == map[])
  {
    BeginInv(kind, s);
    AttemptBegins(kind, s);
    AttemptCompletes(kind, Next(kind, s, Begin), work, SourceNow(kind, s), Target(s), s.mail);
  }

  // ---------------------------------------------------------------------------
  // Every file with its content
  // ---------------------------------------------------------------------------

  /** The directory the row names holds every file, as it was. */
  ghost predicate Intact(s: State) {
    forall p :: p in s.mail ==> HeldAs(s, p, s.mail[p])
  }

  ghost predicate HeldAs(s: State, p: Path, d: Data) {
    p in Held(s, s.pointer) && Held(s, s.pointer)[p] == d
  }

  /** The directory `l` holds another file under the name of a mail. */
  ghost predicate Differs(s: State, l: Loc) {
    exists p :: p in s.mail && p in Held(s, l) && Held(s, l)[p] != s.mail[p]
  }

  /** The step deletes a mail of the directory the row names, or makes the row name one that differs. */
  ghost predicate Loses(s: State, e: Event) {
    match e
    case DeleteOne(p) => s.worker.Deleting? && s.worker.source == s.pointer && p in s.mail
    case Switch => s.record.Some? && Differs(s, Target(s))
    case _ => false
  }

  lemma SwitchIntact(kind: Kind, s: State)
    requires Inv(kind, s) && Enabled(kind, s, Switch) && Intact(s)
    ensures Intact(Next(kind, s, Switch)) <==> !Differs(s, Target(s))
  {
    var s' := Next(kind, s, Switch);
    assert Held(s', s'.pointer) == Held(s, Target(s)) && s'.mail == s.mail;
    forall p | p in s.mail ensures p in Held(s, Target(s)) {
      assert HeldAs(s, p, s.mail[p]);
    }
  }

  lemma DeleteIntact(kind: Kind, s: State, p: Path)
    requires Enabled(kind, s, DeleteOne(p)) && Intact(s)
    ensures Intact(Next(kind, s, DeleteOne(p))) <==> !(s.worker.source == s.pointer && p in s.mail)
  {
    var s' := Next(kind, s, DeleteOne(p));
    forall q | q in s.mail ensures HeldAs(s', q, s.mail[q]) <==> !(s.worker.source == s.pointer && q == p) {
      assert HeldAs(s, q, s.mail[q]);
    }
  }

  lemma CopyIntact(kind: Kind, s: State, p: Path)
    requires Enabled(kind, s, CopyOne(p)) && Intact(s)
    ensures Intact(Next(kind, s, CopyOne(p)))
  {
    forall q | q in s.mail ensures HeldAs(Next(kind, s, CopyOne(p)), q, s.mail[q]) {
      assert HeldAs(s, q, s.mail[q]);
    }
  }

  lemma SameIntact(s: State, s': State)
    requires Intact(s) && s'.mail == s.mail && Held(s', s'.pointer) == Held(s, s.pointer)
    ensures Intact(s')
  {
    forall q | q in s.mail ensures HeldAs(s', q, s.mail[q]) {
      assert HeldAs(s, q, s.mail[q]);
    }
  }

  lemma BeginHolds(kind: Kind, s: State)
    requires Enabled(kind, s, Begin)
    ensures Held(Next(kind, s, Begin), s.pointer) == Held(s, s.pointer)
  {
  }

  lemma BeginIntact(kind: Kind, s: State)
    requires Enabled(kind, s, Begin) && Intact(s)
    ensures Intact(Next(kind, s, Begin))
  {
    BeginHolds(kind, s);
    SameIntact(s, Next(kind, s, Begin));
  }

  lemma AdvanceIntact(kind: Kind, s: State, e: Event)
    requires Enabled(kind, s, e) && Intact(s) && (e.CopyDone? || e.VerifyOk? || e.StartClean?)
    ensures Intact(Next(kind, s, e))
  {
    SameIntact(s, Next(kind, s, e));
  }

  lemma PauseIntact(kind: Kind, s: State, e: Event)
    requires Enabled(kind, s, e) && Intact(s) && (e.RequestCancel? || e.Crash? || e.Initiate?)
    ensures Intact(Next(kind, s, e))
  {
    SameIntact(s, Next(kind, s, e));
  }

  lemma StopIntact(kind: Kind, s: State, e: Event)
    requires Enabled(kind, s, e) && Intact(s) && (e.VerifyFail? || e.SeeCancel? || e.Raise? || e.Complete? || e.DeleteDir?)
    ensures Intact(Next(kind, s, e))
  {
    SameIntact(s, Next(kind, s, e));
  }

  /** Which steps cost mail: exactly those. */
  lemma StepIntact(kind: Kind, s: State, e: Event)
    requires Inv(kind, s) && Enabled(kind, s, e) && Intact(s)
    ensures Intact(Next(kind, s, e)) <==> !Loses(s, e)
  {
    match e {
      case DeleteOne(p) => DeleteIntact(kind, s, p);
      case Switch => SwitchIntact(kind, s);
      case CopyOne(p) => CopyIntact(kind, s, p);
      case LiveChange(files) => assert Held(Next(kind, s, e), s.pointer) == files;
      case Begin => BeginIntact(kind, s);
      case CopyDone => AdvanceIntact(kind, s, e);
      case VerifyOk => AdvanceIntact(kind, s, e);
      case StartClean => AdvanceIntact(kind, s, e);
      case Initiate(_) => PauseIntact(kind, s, e);
      case RequestCancel => PauseIntact(kind, s, e);
      case Crash => PauseIntact(kind, s, e);
      case _ => StopIntact(kind, s, e);
    }
  }

  /** The mail is intact after every step. */
  ghost predicate AlwaysIntact(kind: Kind, s: State, es: seq<Event>)
    requires Can(kind, s, es)
    decreases |es|
  {
    Intact(s) && (es != [] ==> AlwaysIntact(kind, Next(kind, s, es[0]), es[1..]))
  }

  ghost predicate NeverLoses(kind: Kind, s: State, es: seq<Event>)
    requires Can(kind, s, es)
    decreases |es|
  {
    es != [] ==> !Loses(s, es[0]) && NeverLoses(kind, Next(kind, s, es[0]), es[1..])
  }

  lemma {:induction false} RunIntact(kind: Kind, s: State, es: seq<Event>)
    requires Inv(kind, s) && Intact(s) && Can(kind, s, es)
    ensures AlwaysIntact(kind, s, es) <==> NeverLoses(kind, s, es)
    decreases |es|
  {
    if es != [] {
      StepInv(kind, s, es[0]);
      StepIntact(kind, s, es[0]);
      if !Loses(s, es[0]) {
        RunIntact(kind, Next(kind, s, es[0]), es[1..]);
      }
    }
  }

  /** Every switch of the run goes to a directory that holds nothing different under a mail's name. */
  ghost predicate SwitchesAgree(kind: Kind, s: State, es: seq<Event>)
    requires Can(kind, s, es)
    decreases |es|
  {
    es != [] ==>
      && (es[0].Switch? ==> !Differs(s, Target(s)))
      && SwitchesAgree(kind, Next(kind, s, es[0]), es[1..])
  }

  lemma HomeDeletesNothing(s: State, e: Event)
    requires Inv(HomeMove, s) && Enabled(HomeMove, s, e)
    ensures Loses(s, e) <==> e.Switch? && Differs(s, Target(s))
  {
  }

  lemma {:induction false} HomeLosesAtSwitch(s: State, es: seq<Event>)
    requires Inv(HomeMove, s) && Can(HomeMove, s, es)
    ensures NeverLoses(HomeMove, s, es) <==> SwitchesAgree(HomeMove, s, es)
    decreases |es|
  {
    if es != [] {
      HomeDeletesNothing(s, es[0]);
      StepInv(HomeMove, s, es[0]);
      HomeLosesAtSwitch(Next(HomeMove, s, es[0]), es[1..]);
    }
  }

  /** A home's mail is intact throughout a run exactly when no switch goes to a directory that differs. */
  lemma HomeIntact(s: State, es: seq<Event>)
    requires Initial(s) && Can(HomeMove, s, es)
    ensures AlwaysIntact(HomeMove, s, es) <==> SwitchesAgree(HomeMove, s, es)
  {
    RunIntact(HomeMove, s, es);
    HomeLosesAtSwitch(s, es);
  }

  /** An account's, exactly when moreover no attempt deletes a mail of the directory the row names. */
  lemma AccountIntact(s: State, es: seq<Event>)
    requires Initial(s) && Can(AccountMove, s, es)
    ensures AlwaysIntact(AccountMove, s, es) <==> NeverLoses(AccountMove, s, es)
  {
    RunIntact(AccountMove, s, es);
  }

  // ---------------------------------------------------------------------------
  // The account run that does lose mail
  // ---------------------------------------------------------------------------

  lemma {:induction false} RunThen(kind: Kind, s: State, es: seq<Event>, more: seq<Event>)
    requires Can(kind, s, es) && Can(kind, After(kind, s, es), more)
    ensures Can(kind, s, es + more) && After(kind, s, es + more) == After(kind, After(kind, s, es), more)
    decreases |es|
  {
    if es == [] {
      assert es + more == more;
    } else {
      assert (es + more)[1..] == es[1..] + more;
      RunThen(kind, Next(kind, s, es[0]), es[1..], more);
    }
  }

  lemma One(kind: Kind, s: State, e: Event)
    requires Enabled(kind, s, e)
    ensures Can(kind, s, [e]) && After(kind, s, [e]) == Next(kind, s, e)
  {
    assert [e][1..] == [];
  }

  lemma Two(kind: Kind, s: State, e: Event, f: Event)
    requires Enabled(kind, s, e) && Enabled(kind, Next(kind, s, e), f)
    ensures Can(kind, s, [e, f]) && After(kind, s, [e, f]) == Next(kind, Next(kind, s, e), f)
  {
    One(kind, s, e);
    One(kind, Next(kind, s, e), f);
    RunThen(kind, s, [e], [f]);
  }

  /** The one mail of the example, and a directory holding only it. */
  const MAIL := Child(Root, "mail")

  function Example(d: Data): State {
    State("A", false, None, map["A" := map[MAIL := d]], NoWorker, false, map[MAIL := d], true, false)
  }

  lemma StartOnTheMail(s: State, d: Data)
    requires s.worker.NoWorker? && s.record.Some? && s.record.value.status in {Pending, Copying, Verifying, Cleaning}
    requires s.pointer in s.disk && s.disk[s.pointer] == map[MAIL := d]
    ensures Enabled(AccountMove, s, Begin)
    ensures Next(AccountMove, s, Begin) ==
            WithStatus(s, Copying).(disk := s.disk[Target(s) := Held(s, Target(s))], worker := CopyingFiles(s.pointer, {MAIL}))
  {
    assert s.disk[s.pointer].Keys == {MAIL};
  }

  lemma CopyTheMail(s: State, src: Loc, d: Data)
    requires s.worker == CopyingFiles(src, {MAIL}) && !s.cancel && s.record.Some? && Held(s, src) == map[MAIL := d]
    requires Held(s, Target(s)) == map[] || Held(s, Target(s)) == map[MAIL := d]
    ensures Enabled(AccountMove, s, CopyOne(MAIL))
    ensures Next(AccountMove, s, CopyOne(MAIL)) ==
            s.(disk := s.disk[Target(s) := map[MAIL := d]], worker := CopyingFiles(src, {}))
  {
    assert {MAIL} - {MAIL} == {};
    var target := Held(s, Target(s));
    assert (if MAIL in target then target else target[MAIL := d]) == map[MAIL := d];
  }

  lemma VerifyTheCopy(s: State, src: Loc)
    requires s.worker == CopyingFiles(src, {}) && !s.cancel && s.record.Some?
    requires |Held(s, src)| == |Held(s, Target(s))|
    ensures Can(AccountMove, s, [CopyDone, VerifyOk])
    ensures After(AccountMove, s, [CopyDone, VerifyOk]) == WithStatus(s, Verifying).(worker := Checked(src))
  {
    var s1 := Next(AccountMove, s, CopyDone);
    assert Held(s1, src) == Held(s, src) && Held(s1, Target(s)) == Held(s, Target(s));
    Two(AccountMove, s, CopyDone, VerifyOk);
  }

  lemma FinishTheCopy(s: State, src: Loc)
    requires s.worker == Checked(src) && !s.cancel && s.record.Some?
    ensures Can(AccountMove, s, [StartClean, Switch])
    ensures After(AccountMove, s, [StartClean, Switch]) ==
            WithStatus(s, Cleaning).(pointer := Target(s), worker := Deleting(src), selfDelete := s.selfDelete || src == Target(s))
  {
    Two(AccountMove, s, StartClean, Switch);
  }

  lemma CopyFromTheStart(s: State, d: Data) returns (s2: State)
    requires s.worker.NoWorker? && !s.cancel && s.record.Some? && s.record.value.status in {Pending, Copying, Verifying, Cleaning}
    requires s.pointer in s.disk && s.disk[s.pointer] == map[MAIL := d]
    requires Target(s) in s.disk ==> s.disk[Target(s)] == map[MAIL := d]
    ensures Can(AccountMove, s, [Begin, CopyOne(MAIL)]) && After(AccountMove, s, [Begin, CopyOne(MAIL)]) == s2
    ensures s2 == WithStatus(s, Copying).(disk := s.disk[Target(s) := map[MAIL := d]], worker := CopyingFiles(s.pointer, {}))
  {
    StartOnTheMail(s, d);
    var s1 := Next(AccountMove, s, Begin);
    CopyTheMail(s1, s.pointer, d);
    s2 := Next(AccountMove, s1, CopyOne(MAIL));
    Two(AccountMove, s, Begin, CopyOne(MAIL));
    assert s2.disk == s.disk[Target(s) := map[MAIL := d]];
  }

  /** From the start of an attempt on a one-mail directory to its delete phase. */
  lemma AttemptToDelete(s: State, d: Data) returns (es: seq<Event>)
    requires s.worker.NoWorker? && !s.cancel && s.record.Some? && s.record.value.status in {Pending, Copying, Verifying, Cleaning}
    requires s.pointer in s.disk && s.disk[s.pointer] == map[MAIL := d]
    requires Target(s) in s.disk ==> s.disk[Target(s)] == map[MAIL := d]
    ensures Can(AccountMove, s, es)
    ensures After(AccountMove, s, es) ==
            WithStatus(s, Cleaning).(disk := s.disk[Target(s) := map[MAIL := d]], pointer := Target(s),
                                     worker := Deleting(s.pointer), selfDelete := s.selfDelete || s.pointer == Target(s))
  {
    var s2 := CopyFromTheStart(s, d);
    VerifyTheCopy(s2, s.pointer);
    FinishTheCopy(After(AccountMove, s2, [CopyDone, VerifyOk]), s.pointer);
    RunThen(AccountMove, s, [Begin, CopyOne(MAIL)], [CopyDone, VerifyOk]);
    RunThen(AccountMove, s, [Begin, CopyOne(MAIL)] + [CopyDone, VerifyOk], [StartClean, Switch]);
    es := [Begin, CopyOne(MAIL)] + [CopyDone, VerifyOk] + [StartClean, Switch];
  }

  /** A crash between the switch and the completion: the resumed attempt deletes the only copy. */
  lemma CrashAfterSwitchLosesMail(d: Data) returns (es: seq<Event>)
    ensures Initial(Example(d)) && Can(AccountMove, Example(d), es) && !Kept(After(AccountMove, Example(d), es))
  {
    var s := Example(d);
    var s1 := Next(AccountMove, s, Initiate("B"));
    One(AccountMove, s, Initiate("B"));
    var first := AttemptToDelete(s1, d);
    var s2 := After(AccountMove, s1, first);
    var s3 := Next(AccountMove, s2, Crash);
    One(AccountMove, s2, Crash);
    var second := AttemptToDelete(s3, d);
    var s4 := After(AccountMove, s3, second);
    var s5 := Next(AccountMove, s4, DeleteOne(MAIL));
    One(AccountMove, s4, DeleteOne(MAIL));
    RunThen(AccountMove, s, [Initiate("B")], first);
    RunThen(AccountMove, s, [Initiate("B")] + first, [Crash]);
    RunThen(AccountMove, s, [Initiate("B")] + first + [Crash], second);
    RunThen(AccountMove, s, [Initiate("B")] + first + [Crash] + second, [DeleteOne(MAIL)]);
    es := [Initiate("B")] + first + [Crash] + second + [DeleteOne(MAIL)];
    assert MAIL in s5.mail && MAIL !in Held(s5, s5.pointer);
  }
}
