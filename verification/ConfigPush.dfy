/** Queued configuration pushes: an after-commit hook queues at most one waiting job per cluster, a
    job clears the mark before it reads, and reads only under the push lock. Any number of saves,
    hooks and jobs interleave. */
module ConfigPush {
  import opened Wrappers

  // --- state ---------------------------------------------------------------------------------

  /** Where one job stands. `upTo` is what was committed when the job cleared the mark, `since` how
      often the lock had been taken then; a raised job remembers the newest version it let down. */
  datatype Stage =
    | Waiting
    | Starting
    | Unlocked(upTo: nat, since: nat)
    | Locked
    | Holding(snapshot: nat)
    | Pushed
    | Raised(upTo: nat)
    | Failing(upTo: nat)

  /** Versions count the committed changes; `failure` is the error shown on the cluster. */
  datatype State = State(committed: nat, applied: nat, mark: bool, hooks: nat, marking: nat, jobs: map<nat, Stage>,
                         lock: Option<nat>, acquired: nat, failure: Option<nat>)

  datatype Action =
    | Save
    | RunHook
    | Enqueue(job: nat)
    | Start(job: nat)
    | ClearMark(job: nat)
    | Acquire(job: nat)
    | Refuse(job: nat)
    | Read(job: nat)
    | Apply(job: nat)
    | Fail(job: nat, reached: bool)
    | FailUnread(job: nat)
    | Release(job: nat)
    | Record(job: nat)
    | Kill(job: nat, reached: bool)
    | KillHook
    | KillMarking
    | ExpireLock
    | ExpireMark

  predicate At(s: State, job: nat, stage: Stage) {
    job in s.jobs && s.jobs[job] == stage
  }

  predicate Enabled(s: State, action: Action) {
    match action
    case Save => true
    case RunHook => s.hooks > 0
    case Enqueue(job) => s.marking > 0 && job !in s.jobs && s.lock != Some(job)
    case Start(job) => At(s, job, Waiting)
    case ClearMark(job) => At(s, job, Starting)
    case Acquire(job) => job in s.jobs && s.jobs[job].Unlocked? && s.lock == None
    // The wait is as long as the lock may be held: who refuses a job took the lock after it queued up.
    case Refuse(job) => job in s.jobs && s.jobs[job].Unlocked? && s.lock.Some? && s.acquired > s.jobs[job].since
    case Read(job) => At(s, job, Locked)
    case Apply(job) => job in s.jobs && s.jobs[job].Holding?
    case Fail(job, _) => job in s.jobs && s.jobs[job].Holding?
    case FailUnread(job) => At(s, job, Locked)
    case Release(job) => job in s.jobs && (s.jobs[job].Pushed? || s.jobs[job].Raised?)
    case Record(job) => job in s.jobs && s.jobs[job].Failing?
    // A worker dies with its job: nothing is recorded, and its lock stays until it expires.
    case Kill(job, _) => job in s.jobs && !s.jobs[job].Waiting?
    case KillHook => s.hooks > 0
    case KillMarking => s.marking > 0
    case ExpireLock => s.lock.Some? && s.lock.value !in s.jobs
    case ExpireMark => s.mark
  }

  function Move(s: State, job: nat, stage: Stage): State {
    s.(jobs := s.jobs[job := stage])
  }

  function Newest(failure: Option<nat>, upTo: nat): Option<nat> {
    if failure.Some? && failure.value > upTo then failure else Some(upTo)
  }

  function Next(s: State, action: Action): State
    requires Enabled(s, action)
  {
    match action
    case Save => s.(committed := s.committed + 1, hooks := s.hooks + 1)
    case RunHook =>
      if s.mark then s.(hooks := s.hooks - 1) else s.(hooks := s.hooks - 1, mark := true, marking := s.marking + 1)
    case Enqueue(job) => Move(s, job, Waiting).(marking := s.marking - 1)
    case Start(job) => Move(s, job, Starting)
    case ClearMark(job) => Move(s, job, Unlocked(s.committed, s.acquired)).(mark := false)
    case Acquire(job) => Move(s, job, Locked).(lock := Some(job), acquired := s.acquired + 1)
    case Refuse(job) => Move(s, job, Failing(s.jobs[job].upTo))
    case Read(job) => Move(s, job, Holding(s.committed))
    case Apply(job) => Move(s, job, Pushed).(applied := s.jobs[job].snapshot, failure := None)
    case Fail(job, reached) =>
      Move(s, job, Raised(s.jobs[job].snapshot)).(applied := if reached then s.jobs[job].snapshot else s.applied)
    case FailUnread(job) => Move(s, job, Raised(s.committed))
    case Release(job) =>
      (if s.jobs[job].Raised? then Move(s, job, Failing(s.jobs[job].upTo))
          else s.(jobs := s.jobs - {job})).(lock := None)
    case Record(job) => s.(jobs := s.jobs - {job}, failure := Newest(s.failure, s.jobs[job].upTo))
    case Kill(job, reached) =>
      s.(jobs := s.jobs - {job},
         applied := if s.jobs[job].Holding? && reached then s.jobs[job].snapshot else s.applied)
    case KillHook => s.(hooks := s.hooks - 1)
    case KillMarking => s.(marking := s.marking - 1)
    case ExpireLock => s.(lock := None)
    case ExpireMark => s.(mark := false)
  }

  type Run = seq<Action>

  predicate IsRun(s: State, run: Run)
    decreases |run|
  {
    run == [] || (Enabled(s, run[0]) && IsRun(Next(s, run[0]), run[1..]))
  }

  function After(s: State, run: Run): State
    requires IsRun(s, run)
    decreases |run|
  {
    if run == [] then s else After(Next(s, run[0]), run[1..])
  }

  predicate Initial(s: State) {
    s.applied == s.committed && !s.mark && s.hooks == 0 && s.marking == 0 && s.jobs == map[] && s.lock == None
  }

  // --- invariant -----------------------------------------------------------------------------

  predicate InLock(stage: Stage) {
    stage.Locked? || stage.Holding? || stage.Pushed? || stage.Raised?
  }

  /** One push at a time. */
  predicate LockOk(s: State) {
    forall job | job in s.jobs :: InLock(s.jobs[job]) <==> s.lock == Some(job)
  }

  /** A waiting mark stands for a job that will still read. */
  predicate MarkOk(s: State) {
    s.mark ==> s.marking > 0 || exists job | job in s.jobs :: s.jobs[job].Waiting? || s.jobs[job].Starting?
  }

  predicate VersionsOk(s: State) {
    && s.applied <= s.committed
    && (s.failure.Some? ==> s.failure.value <= s.committed)
    && forall job | job in s.jobs ::
      match s.jobs[job]
      case Unlocked(upTo, since) => upTo <= s.committed && since <= s.acquired
      case Holding(snapshot) => s.applied <= snapshot <= s.committed
      case Raised(upTo) => upTo <= s.committed
      case Failing(upTo) => upTo <= s.committed
      case _ => true
  }

  /** A holder that has read covers every failure there is, and every job waiting since before it took
      the lock. */
  predicate HolderOk(s: State) {
    forall holder | holder in s.jobs && s.jobs[holder].Holding? ::
      var snapshot := s.jobs[holder].snapshot;
      && (s.failure.Some? ==> s.failure.value <= snapshot)
      && forall job | job in s.jobs ::
        && (s.jobs[job].Failing? ==> s.jobs[job].upTo <= snapshot)
        && (s.jobs[job].Unlocked? && s.acquired > s.jobs[job].since ==> s.jobs[job].upTo <= snapshot)
  }

  /** Who will bring `version` to the cluster, or has it on record that it is missing. */
  predicate JobCovers(stage: Stage, version: nat) {
    match stage
    case Waiting => true
    case Starting => true
    case Unlocked(upTo, _) => version <= upTo
    case Locked => true
    case Holding(snapshot) => version <= snapshot
    case Pushed => false
    case Raised(upTo) => version <= upTo
    case Failing(upTo) => version <= upTo
  }

  predicate Covered(s: State, version: nat) {
    || s.hooks > 0
    || s.marking > 0
    || (exists job | job in s.jobs :: JobCovers(s.jobs[job], version))
    || (s.failure.Some? && version <= s.failure.value)
  }

  predicate NothingLost(s: State) {
    forall version: nat | s.applied < version <= s.committed :: Covered(s, version)
  }

  /** What holds over every run, whoever is killed. */
  predicate BasicInv(s: State) {
    LockOk(s) && VersionsOk(s) && HolderOk(s)
  }

  predicate Inv(s: State) {
    BasicInv(s) && MarkOk(s) && NothingLost(s)
  }

  /** The cluster is behind, and nothing there is will bring the change or shows that it is missing. */
  predicate Loses(s: State) {
    s.applied < s.committed && !Covered(s, s.committed)
  }

  /** No change is lost, and the mark does not stand for a job that is gone. */
  predicate Backed(s: State) {
    MarkOk(s) && !Loses(s)
  }

  /** A worker or the process of a save dies. */
  predicate IsKill(action: Action) {
    action.Kill? || action.KillHook? || action.KillMarking?
  }

  /** Everyone who is killed leaves its changes to another. */
  predicate KillsBacked(s: State, run: Run)
    requires IsRun(s, run)
    decreases |run|
  {
    run == [] || ((IsKill(run[0]) ==> Backed(Next(s, run[0]))) && KillsBacked(Next(s, run[0]), run[1..]))
  }
}
