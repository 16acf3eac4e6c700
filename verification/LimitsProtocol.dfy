/** Checks, seeds, losses and the flush as one state machine: which counters a flush may not forget,
    and how many recipients a period can accept. */
module LimitsProtocol {
  import opened Wrappers
  import opened SendingLimits

  // --- state ---------------------------------------------------------------------------------

  /** A worker holding a seed it read from the stored rows and has not used yet. */
  datatype Job = Job(account: string, at: Clock, seed: Seed)

  /** Where the one flusher stands; `Writing` holds what its open transaction has upserted. */
  datatype Flusher =
    | Idle
    | Reading(todo: set<Key>, read: Counters)
    | Writing(rest: Counters, tx: Counters)
    | Committed

  /** `snapshot`: the accounts as the flusher's transaction sees them, from its first read to its end. */
  datatype State = State(counters: Counters, touched: set<Key>, flushing: set<Key>, rows: Counters,
                         accounts: set<string>, jobs: map<nat, Job>, flusher: Flusher,
                         snapshot: Option<set<string>>, now: Clock, limits: map<string, Limits>)

  datatype Action =
    | Check(account: string, at: Clock)
    | ReadSeed(worker: nat, account: string, at: Clock)
    | CheckSeeded(worker: nat)
    | LoseAll
    | LoseCounter(key: Key)
    | LoseTouched
    | LoseFlushing
    | Rename
    | ReadMembers
    | ReadCounter(key: Key)
    | StartWriting
    | TakeSnapshot
    | UpsertBatch(batch: set<Key>)
    | Commit
    | DeleteFlushing
    | Crash
    | DeleteAccount(account: string)
    | CreateAccount(account: string)
    | Prune(keys: set<Key>)
    | NextDay(newMonth: bool)

  /** A worker's clock was read at or before now. */
  predicate Past(at: Clock, now: Clock) {
    at.day <= now.day && at.month <= now.month
  }

  predicate Enabled(s: State, action: Action) {
    match action
    case Check(account, at) => account in s.limits && Past(at, s.now)
    case ReadSeed(worker, account, at) => account in s.limits && Past(at, s.now)
    case CheckSeeded(worker) => worker in s.jobs
    case LoseAll => true
    case LoseCounter(key) => key in s.counters
    case LoseTouched => true
    case LoseFlushing => true
    case Rename => s.flusher.Idle? && s.flushing == {} && s.touched != {}
    case ReadMembers => s.flusher.Idle? && s.flushing != {}
    case ReadCounter(key) => s.flusher.Reading? && key in s.flusher.todo
    case StartWriting => s.flusher.Reading? && s.flusher.todo == {}
    case TakeSnapshot => (s.flusher.Reading? || s.flusher.Writing?) && s.snapshot.None?
    case UpsertBatch(batch) => s.flusher.Writing? && s.snapshot.Some? && batch <= s.flusher.rest.Keys
    case Commit => s.flusher.Writing? && s.flusher.rest == map[]
    case DeleteFlushing => s.flusher.Committed?
    case Crash => true
    case DeleteAccount(account) => true
    case CreateAccount(account) => true
    case Prune(keys) => forall key | key in keys :: !Reportable(key.period, s.now)
    case NextDay(newMonth) => true
  }

  function RunScript(s: State, account: string, at: Clock, seed: Option<Seed>): State
    requires account in s.limits
  {
    var day, month, limits := DayKey(account, at), MonthKey(account, at), s.limits[account];
    s.(counters := ScriptCounters(s.counters, day, month, limits, seed),
       touched := if ScriptVerdict(s.counters, day, month, limits, seed) == NeedsSeed then s.touched
                  else s.touched + {day, month})
  }

  function SeedFor(rows: Counters, account: string, at: Clock): Seed {
    Seed(CountOf(rows, DayKey(account, at)), CountOf(rows, MonthKey(account, at)))
  }

  predicate JobsOk(s: State) {
    forall worker | worker in s.jobs :: s.jobs[worker].account in s.limits && Past(s.jobs[worker].at, s.now)
  }

  function Next(s: State, action: Action): State
    requires Enabled(s, action) && JobsOk(s)
  {
    match action
    case Check(account, at) => RunScript(s, account, at, None)
    case ReadSeed(worker, account, at) =>
      s.(jobs := s.jobs[worker := Job(account, at, SeedFor(s.rows, account, at))])
    case CheckSeeded(worker) =>
      var job := s.jobs[worker];
      RunScript(s.(jobs := s.jobs - {worker}), job.account, job.at, Some(job.seed))
    case LoseAll => s.(counters := map[], touched := {}, flushing := {})
    case LoseCounter(key) => s.(counters := s.counters - {key})
    case LoseTouched => s.(touched := {})
    case LoseFlushing => s.(flushing := {})
    case Rename => s.(flushing := s.touched, touched := {})
    case ReadMembers =>
      s.(flusher := Reading(set key | key in s.flushing && Reportable(key.period, s.now), map[]))
    case ReadCounter(key) =>
      var read := if key in s.counters then s.flusher.read[key := s.counters[key]] else s.flusher.read;
      s.(flusher := Reading(s.flusher.todo - {key}, read))
    case StartWriting => s.(flusher := Writing(s.flusher.read, map[]))
    case TakeSnapshot => s.(snapshot := Some(s.accounts))
    case UpsertBatch(batch) =>
      var written := map key | key in batch && key.account in s.snapshot.value :: s.flusher.rest[key];
      s.(flusher := Writing(s.flusher.rest - batch, s.flusher.tx + written))
    case Commit => s.(rows := Upserted(s.rows, s.flusher.tx), flusher := Committed, snapshot := None)
    case DeleteFlushing => s.(flushing := {}, flusher := Idle)
    case Crash => s.(flusher := Idle, snapshot := None)
    case DeleteAccount(account) =>
      s.(accounts := s.accounts - {account}, rows := map key | key in s.rows && key.account != account :: s.rows[key])
    case CreateAccount(account) => s.(accounts := s.accounts + {account})
    case Prune(keys) => s.(rows := s.rows - keys)
    case NextDay(newMonth) => s.(now := Tick(s.now, newMonth))
  }

  type Run = seq<Action>

  /** Every action of the run is possible where it stands. */
  predicate IsRun(s: State, run: Run)
    decreases |run|
  {
    run == [] || (JobsOk(s) && Enabled(s, run[0]) && IsRun(Next(s, run[0]), run[1..]))
  }

  function After(s: State, run: Run): State
    requires IsRun(s, run)
    decreases |run|
  {
    if run == [] then s else After(Next(s, run[0]), run[1..])
  }

  predicate Initial(s: State) {
    && s.counters == map[] && s.touched == {} && s.flushing == {}
    && s.rows == map[] && s.jobs == map[] && s.flusher == Idle && s.snapshot == None
    && s.now.lastMonth <= s.now.month <= s.now.lastMonth + 1
  }

  // --- nothing is forgotten ------------------------------------------------------------------

  predicate AtMost(a: Counter, b: Counter) {
    a.sent <= b.sent && a.refused <= b.refused
  }

  /** The counter holds more than its stored row. */
  predicate Ahead(s: State, key: Key) {
    key in s.counters && !AtMost(s.counters[key], CountOf(s.rows, key))
  }

  predicate Remembered(s: State, key: Key) {
    key in s.touched || key in s.flushing
  }

  /** Every reportable counter of an existing account that is ahead of its row waits for a flush. */
  predicate NothingForgotten(s: State) {
    forall key | key in s.counters && key.account in s.accounts && Reportable(key.period, s.now) && Ahead(s, key) ::
      Remembered(s, key)
  }

  /** The flusher has not read the member yet. */
  predicate WillRead(s: State, key: Key) {
    s.flusher.Idle? || (s.flusher.Reading? && key in s.flusher.todo)
  }

  /** The flusher's transaction sees the account, or will. */
  predicate Passes(s: State, account: string) {
    s.snapshot.Some? ==> account in s.snapshot.value
  }

  /** What it has read and will commit. */
  function InHand(s: State, key: Key): Counter {
    match s.flusher
    case Reading(_, read) => if Passes(s, key.account) then CountOf(read, key) else ZERO
    case Writing(rest, tx) =>
      Greater(if Passes(s, key.account) then CountOf(rest, key) else ZERO, CountOf(tx, key))
    case _ => ZERO
  }

  /** The flusher is not past the counter: it will read it, or stores enough of it. */
  predicate IsStored(s: State, key: Key)
    requires key in s.counters
  {
    || (WillRead(s, key) && Passes(s, key.account))
    || AtMost(s.counters[key], Greater(CountOf(s.rows, key), InHand(s, key)))
  }

  predicate Covered(s: State, key: Key) {
    key !in s.counters || key in s.touched || key.account !in s.accounts || IsStored(s, key)
  }

  predicate FlusherCovers(s: State) {
    forall key | key in s.flushing && Reportable(key.period, s.now) :: Covered(s, key)
  }

  /** Counters and members are of periods that have begun. */
  predicate PeriodsBegun(s: State) {
    && (forall key | key in s.counters :: Begun(key.period, s.now))
    && (forall key | key in s.touched :: Begun(key.period, s.now))
    && (forall key | key in s.flushing :: Begun(key.period, s.now))
  }

  /** What is still to write and what the transaction holds are different rows; outside a transaction there
      is no snapshot. */
  predicate FlusherOk(s: State) {
    && (s.flusher.Writing? ==> s.flusher.rest.Keys !! s.flusher.tx.Keys)
    && (s.flusher.Idle? || s.flusher.Committed? ==> s.snapshot.None?)
  }

  /** What every action keeps. */
  predicate BasicInv(s: State) {
    && JobsOk(s)
    && FlusherOk(s)
    && s.now.lastMonth <= s.now.month <= s.now.lastMonth + 1
    && PeriodsBegun(s)
  }

  predicate Inv(s: State) {
    BasicInv(s) && NothingForgotten(s) && FlusherCovers(s)
  }

  /** Every live counter of an existing account that is ahead of its row waits to be flushed. */
  predicate Ready(s: State) {
    forall key | key in s.counters && key.account in s.accounts && Reportable(key.period, s.now) && Ahead(s, key) ::
      key in s.touched || (key in s.flushing && IsStored(s, key))
  }

  lemma ReadyIsInv(s: State)
    requires BasicInv(s)
    ensures Ready(s) <==> Inv(s)
  {
    hide JobsOk, PeriodsBegun, Reportable;
    if Ready(s) {
      forall key | key in s.flushing && Reportable(key.period, s.now) ensures Covered(s, key) {
        if key in s.counters && !Ahead(s, key) {
          assert AtMost(s.counters[key], Greater(CountOf(s.rows, key), InHand(s, key)));
        }
      }
    }
    if Inv(s) {
      forall key | key in s.counters && key.account in s.accounts && Reportable(key.period, s.now) && Ahead(s, key)
        ensures key in s.touched || (key in s.flushing && IsStored(s, key))
      {
        assert Remembered(s, key);
        assert key in s.flushing ==> Covered(s, key);
      }
    }
  }

  /** The actions that can leave a counter to no flush: an account made over counters of its name, and the
      loss of one of the two sets. */
  predicate IsRisky(action: Action) {
    action.CreateAccount? || action.LoseTouched? || action.LoseFlushing?
  }

  predicate IsReady(s: State, action: Action)
    requires Enabled(s, action) && JobsOk(s)
  {
    IsRisky(action) ==> Ready(Next(s, action))
  }

  predicate StaysReady(s: State, run: Run)
    requires IsRun(s, run)
    decreases |run|
  {
    run == [] || (IsReady(s, run[0]) && StaysReady(Next(s, run[0]), run[1..]))
  }

  /** A period that has begun and is reportable after midnight was so before. */
  lemma StillReportable(period: Period, now: Clock, newMonth: bool)
    requires Begun(period, now) && Reportable(period, Tick(now, newMonth))
    ensures Reportable(period, now)
  {
  }

  lemma ScriptKeepsInv(s: State, account: string, at: Clock, seed: Option<Seed>)
    requires Inv(s) && account in s.limits && Past(at, s.now)
    ensures Inv(RunScript(s, account, at, seed))
  {
    hide Reportable;
    var t := RunScript(s, account, at, seed);
    var day, month := DayKey(account, at), MonthKey(account, at);
    ScriptTouches(s, account, at, seed);
    hide RunScript, Begun;
    forall key | key in t.flushing && Reportable(key.period, t.now) ensures Covered(t, key) {
      assert Covered(s, key);
    }
  }

  /** The script changes two counters, which are touched then. */
  lemma ScriptTouches(s: State, account: string, at: Clock, seed: Option<Seed>)
    requires BasicInv(s) && account in s.limits && Past(at, s.now)
    ensures var t := RunScript(s, account, at, seed);
            && t == s.(counters := t.counters, touched := t.touched) && s.touched <= t.touched
            && PeriodsBegun(t)
            && forall key | key in t.counters && key !in t.touched ::
                 key in s.counters && t.counters[key] == s.counters[key]
  {
  }

  predicate Reads(action: Action) {
    action.Rename? || action.ReadMembers? || action.ReadCounter? || action.StartWriting? || action.TakeSnapshot?
  }

  predicate Writes(action: Action) {
    action.UpsertBatch? || action.Commit? || action.DeleteFlushing? || action.Crash?
  }

  lemma ReadsKeepInv(s: State, action: Action)
    requires Inv(s) && Enabled(s, action) && Reads(action)
    ensures Inv(Next(s, action))
  {
    hide Inv;
    if action.ReadMembers? || action.ReadCounter? {
      ReadingKeepsInv(s, action);
    } else {
      BetweenKeepsInv(s, action);
    }
  }

  lemma ReadingKeepsInv(s: State, action: Action)
    requires Inv(s) && Enabled(s, action) && (action.ReadMembers? || action.ReadCounter?)
    ensures Inv(Next(s, action))
  {
    hide Reportable;
  }

  lemma BetweenKeepsInv(s: State, action: Action)
    requires Inv(s) && Enabled(s, action) && (action.Rename? || action.StartWriting? || action.TakeSnapshot?)
    ensures Inv(Next(s, action))
  {
    hide Reportable;
  }

  /** A batch only moves what is in hand into the transaction. */
  lemma UpsertKeepsHand(s: State, batch: set<Key>, key: Key)
    requires Enabled(s, UpsertBatch(batch)) && JobsOk(s) && FlusherOk(s)
    ensures InHand(Next(s, UpsertBatch(batch)), key) == InHand(s, key)
    ensures FlusherOk(Next(s, UpsertBatch(batch)))
  {
    hide JobsOk;
  }

  lemma CommitStoresHand(s: State, key: Key)
    requires Enabled(s, Commit) && JobsOk(s)
    ensures var t := Next(s, Commit);
            CountOf(t.rows, key) == Greater(CountOf(s.rows, key), InHand(s, key)) && InHand(t, key) == ZERO
            && Greater(CountOf(t.rows, key), InHand(t, key)) == CountOf(t.rows, key)
  {
    hide JobsOk;
  }

  lemma UpsertKeepsInv(s: State, batch: set<Key>)
    requires Inv(s) && Enabled(s, UpsertBatch(batch))
    ensures Inv(Next(s, UpsertBatch(batch)))
  {
    var t := Next(s, UpsertBatch(batch));
    forall key | key in t.flushing && Reportable(key.period, t.now) ensures Covered(t, key) {
      assert Covered(s, key);
      UpsertKeepsHand(s, batch, key);
    }
  }

  lemma CommitKeepsInv(s: State)
    requires Inv(s) && Enabled(s, Commit)
    ensures Inv(Next(s, Commit))
  {
    var t := Next(s, Commit);
    forall key ensures CountOf(t.rows, key) == Greater(CountOf(s.rows, key), InHand(s, key)) {
      CommitStoresHand(s, key);
    }
  }

  lemma WritesKeepInv(s: State, action: Action)
    requires Inv(s) && Enabled(s, action) && Writes(action)
    ensures Inv(Next(s, action))
  {
    match action
    case UpsertBatch(batch) => UpsertKeepsInv(s, batch);
    case Commit => CommitKeepsInv(s);
    case _ => EndKeepsInv(s, action);
  }

  lemma EndKeepsInv(s: State, action: Action)
    requires Inv(s) && Enabled(s, action) && (action.DeleteFlushing? || action.Crash?)
    ensures Inv(Next(s, action))
  {
  }

  lemma DayKeepsInv(s: State, newMonth: bool)
    requires Inv(s)
    ensures Inv(Next(s, NextDay(newMonth)))
  {
    var t := Next(s, NextDay(newMonth));
    forall key | (key in s.counters || key in s.flushing) && Reportable(key.period, t.now)
      ensures Reportable(key.period, s.now)
    {
      StillReportable(key.period, s.now, newMonth);
    }
  }

  lemma OthersKeepInv(s: State, action: Action)
    requires Inv(s) && Enabled(s, action) && !Reads(action) && !Writes(action)
    requires !action.Check? && !action.CheckSeeded? && !action.NextDay? && !IsRisky(action)
    ensures Inv(Next(s, action))
  {
    hide Inv;
    if action.DeleteAccount? || action.Prune? {
      DeletesKeepInv(s, action);
    } else {
      LossesKeepInv(s, action);
    }
  }

  lemma DeletesKeepInv(s: State, action: Action)
    requires Inv(s) && Enabled(s, action) && (action.DeleteAccount? || action.Prune?)
    ensures Inv(Next(s, action))
  {
    hide Reportable;
  }

  lemma LossesKeepInv(s: State, action: Action)
    requires Inv(s) && Enabled(s, action) && (action.ReadSeed? || action.LoseAll? || action.LoseCounter?)
    ensures Inv(Next(s, action))
  {
    hide Reportable;
  }

  lemma NextKeepsInv(s: State, action: Action)
    requires Inv(s) && Enabled(s, action) && IsReady(s, action)
    ensures Inv(Next(s, action))
  {
    hide Inv, Ready;
    if IsRisky(action) {
      RiskKeepsInv(s, action);
    } else if action.Check? || action.CheckSeeded? {
      CheckKeepsInv(s, action);
    } else if action.NextDay? {
      DayKeepsInv(s, action.newMonth);
    } else if Reads(action) {
      ReadsKeepInv(s, action);
    } else if Writes(action) {
      WritesKeepInv(s, action);
    } else {
      OthersKeepInv(s, action);
    }
  }

  lemma RiskKeepsInv(s: State, action: Action)
    requires Inv(s) && Enabled(s, action) && IsRisky(action) && Ready(Next(s, action))
    ensures Inv(Next(s, action))
  {
    hide Inv, Ready;
    InvIsBasic(s);
    NextKeepsBasicInv(s, action);
    ReadyIsInv(Next(s, action));
  }

  lemma InvIsBasic(s: State)
    requires Inv(s)
    ensures BasicInv(s)
  {
  }

  lemma CheckKeepsInv(s: State, action: Action)
    requires Inv(s) && Enabled(s, action) && (action.Check? || action.CheckSeeded?)
    ensures Inv(Next(s, action))
  {
    match action
    case Check(account, at) => ScriptKeepsInv(s, account, at, None);
    case CheckSeeded(worker) =>
      ScriptKeepsInv(s.(jobs := s.jobs - {worker}), s.jobs[worker].account, s.jobs[worker].at,
          Some(s.jobs[worker].seed));
  }

  lemma NextKeepsBasicInv(s: State, action: Action)
    requires BasicInv(s) && Enabled(s, action)
    ensures BasicInv(Next(s, action))
  {
    hide Next, Enabled, PeriodsBegun, JobsOk, FlusherOk;
    NextKeepsJobs(s, action);
    NextKeepsFlusher(s, action);
    NextKeepsPeriods(s, action);
  }

  lemma NextKeepsJobs(s: State, action: Action)
    requires BasicInv(s) && Enabled(s, action)
    ensures JobsOk(Next(s, action))
  {
    hide PeriodsBegun, FlusherOk, ScriptCounters, ScriptVerdict;
  }

  lemma NextKeepsFlusher(s: State, action: Action)
    requires BasicInv(s) && Enabled(s, action)
    ensures FlusherOk(Next(s, action))
  {
    hide PeriodsBegun, ScriptCounters, ScriptVerdict;
  }

  lemma NextKeepsPeriods(s: State, action: Action)
    requires BasicInv(s) && Enabled(s, action)
    ensures var t := Next(s, action); t.now.lastMonth <= t.now.month <= t.now.lastMonth + 1 && PeriodsBegun(t)
  {
    hide RunScript, ScriptCounters, ScriptVerdict;
    if action.Check? {
      ScriptTouches(s, action.account, action.at, None);
    } else if action.CheckSeeded? {
      var job := s.jobs[action.worker];
      ScriptTouches(s.(jobs := s.jobs - {action.worker}), job.account, job.at, Some(job.seed));
    }
  }

  lemma InitialIsInv(s: State)
    requires Initial(s)
    ensures Inv(s)
  {
  }

  lemma {:induction false} RunKeepsInv(s: State, run: Run)
    requires Inv(s) && IsRun(s, run) && StaysReady(s, run)
    ensures Inv(After(s, run))
    decreases |run|
  {
    hide Inv, Enabled, Next, IsReady, JobsOk;
    if run != [] {
      NextKeepsInv(s, run[0]);
      RunKeepsInv(Next(s, run[0]), run[1..]);
    }
  }

  /** Under any interleaving of checks, losses and a flusher that may crash at any step, no counted
      recipient is forgotten, unless an account is made over counters of its name no flush will store, or
      one of the two sets is lost with a counter no flush will store: a counter ahead of its row is in one
      of the two sets, and once both are empty every row holds what its counter holds. */
  lemma NoRecipientIsForgotten(s: State, run: Run)
    requires Initial(s) && IsRun(s, run) && StaysReady(s, run)
    ensures var t := After(s, run);
            && NothingForgotten(t)
            && (t.touched == {} && t.flushing == {} ==>
                  forall key | key in t.counters && key.account in t.accounts && Reportable(key.period, t.now) ::
                    AtMost(t.counters[key], CountOf(t.rows, key)))
  {
    InitialIsInv(s);
    RunKeepsInv(s, run);
    var t := After(s, run);
    if t.touched == {} && t.flushing == {} {
      forall key | key in t.counters && key.account in t.accounts && Reportable(key.period, t.now)
        ensures AtMost(t.counters[key], CountOf(t.rows, key))
      {
        assert Ahead(t, key) ==> Remembered(t, key);
      }
    }
  }

  // --- a name taken again ----------------------------------------------------------------------

  lemma Before(s: State, action: Action, t: State, run: Run) returns (longer: Run)
    requires JobsOk(s) && Enabled(s, action) && Next(s, action) == t && IsRun(t, run)
    ensures IsRun(s, longer) && After(s, longer) == After(t, run)
    ensures longer == [action] + run
  {
    longer := [action] + run;
  }

  predicate NoRisks(run: Run) {
    forall i | 0 <= i < |run| :: !IsRisky(run[i])
  }

  lemma {:induction false} NoRisksStayReady(s: State, run: Run)
    requires IsRun(s, run) && NoRisks(run)
    ensures StaysReady(s, run)
    decreases |run|
  {
    hide Enabled, Next, JobsOk;
    if run != [] {
      assert forall i | 0 <= i < |run[1..]| :: run[1..][i] == run[i + 1];
      NoRisksStayReady(Next(s, run[0]), run[1..]);
    }
  }

  /** What is left to the flusher is little enough to count: the members to read, then the phases. */
  function Left(s: State): (nat, nat)
    requires !s.flusher.Idle?
  {
    match s.flusher
    case Reading(todo, _) => (|todo|, 4)
    case Writing(rest, _) => (0, if rest == map[] then 1 else if s.snapshot.Some? then 2 else 3)
    case _ => (0, 0)
  }

  /** The flush finishes undisturbed: a counter it is past ends up with what it had in hand. */
  lemma {:induction false} FinishFlush(s: State, key: Key) returns (run: Run)
    requires JobsOk(s) && FlusherOk(s)
    requires !s.flusher.Idle? && !(WillRead(s, key) && Passes(s, key.account)) && key.account in s.accounts
    ensures IsRun(s, run) && NoRisks(run)
    ensures var t := After(s, run);
            && t.flushing == {} && t.touched == s.touched && t.counters == s.counters && t.accounts == s.accounts
            && t.now == s.now && CountOf(t.rows, key) == Greater(CountOf(s.rows, key), InHand(s, key))
    decreases Left(s).0, Left(s).1
  {
    var action := match s.flusher
      case Reading(todo, read) => if todo == {} then StartWriting else var k :| k in todo; ReadCounter(k)
      case Writing(rest, tx) =>
        if rest == map[] then Commit else if s.snapshot.None? then TakeSnapshot else UpsertBatch(rest.Keys)
      case _ => DeleteFlushing;
    FlushStep(s, action, key);
    if action == DeleteFlushing {
      run := Before(s, action, Next(s, action), []);
    } else {
      var rest := FinishFlush(Next(s, action), key);
      run := Before(s, action, Next(s, action), rest);
    }
  }

  predicate IsFlushStep(s: State, action: Action) {
    match s.flusher
    case Reading(todo, _) => if todo == {} then action == StartWriting else action.ReadCounter? && action.key in todo
    case Writing(rest, _) =>
      if rest == map[] then action == Commit
      else if s.snapshot.None? then action == TakeSnapshot
      else action == UpsertBatch(rest.Keys)
    case Committed => action == DeleteFlushing
    case Idle => false
  }

  lemma FlushStep(s: State, action: Action, key: Key)
    requires JobsOk(s) && FlusherOk(s) && IsFlushStep(s, action) && key.account in s.accounts
        && !(WillRead(s, key) && Passes(s, key.account))
    ensures Enabled(s, action)
    ensures var t := Next(s, action);
            && JobsOk(t) && FlusherOk(t)
            && t.touched == s.touched && t.counters == s.counters && t.accounts == s.accounts && t.now == s.now
            && (action == DeleteFlushing ==> t.flushing == {} && t.rows == s.rows && InHand(s, key) == ZERO)
            && (action != DeleteFlushing ==>
                  && !t.flusher.Idle? && !(WillRead(t, key) && Passes(t, key.account))
                  && Greater(CountOf(t.rows, key), InHand(t, key)) == Greater(CountOf(s.rows, key), InHand(s, key))
                  && (Left(t).0 < Left(s).0 || (Left(t).0 == Left(s).0 && Left(t).1 < Left(s).1)))
  {
    match s.flusher
    case Reading(_, _) => ReadStep(s, action, key);
    case Writing(_, _) => WriteStep(s, action, key);
    case _ =>
  }

  lemma ReadStep(s: State, action: Action, key: Key)
    requires JobsOk(s) && FlusherOk(s) && s.flusher.Reading? && IsFlushStep(s, action)
        && !(WillRead(s, key) && Passes(s, key.account))
    ensures Enabled(s, action) && FlusherOk(Next(s, action))
    ensures var t := Next(s, action);
            && !t.flusher.Idle? && !(WillRead(t, key) && Passes(t, key.account))
            && t.rows == s.rows && InHand(t, key) == InHand(s, key)
            && (Left(t).0 < Left(s).0 || (Left(t).0 == Left(s).0 && Left(t).1 < Left(s).1))
  {
  }

  lemma WriteStep(s: State, action: Action, key: Key)
    requires JobsOk(s) && FlusherOk(s) && s.flusher.Writing? && IsFlushStep(s, action)
        && key.account in s.accounts
    ensures Enabled(s, action) && FlusherOk(Next(s, action))
    ensures var t := Next(s, action);
            && !t.flusher.Idle? && !(WillRead(t, key) && Passes(t, key.account))
            && Greater(CountOf(t.rows, key), InHand(t, key)) == Greater(CountOf(s.rows, key), InHand(s, key))
            && Left(t).0 == Left(s).0 && Left(t).1 < Left(s).1
  {
    hide JobsOk, InHand, CountOf, Greater;
    if action.UpsertBatch? {
      assert s.flusher.rest - s.flusher.rest.Keys == map[];
      UpsertKeepsHand(s, action.batch, key);
    } else if action.Commit? {
      CommitStoresHand(s, key);
    } else {
      SnapshotKeepsHand(s, key);
    }
  }

  lemma SnapshotKeepsHand(s: State, key: Key)
    requires Enabled(s, TakeSnapshot) && JobsOk(s) && key.account in s.accounts
    ensures InHand(Next(s, TakeSnapshot), key) == InHand(s, key)
  {
  }

  /** A counter no flush will store: a run without any further account or lost set after which it is
      forgotten. */
  lemma UnreadyIsForgotten(t: State) returns (run: Run)
    requires BasicInv(t) && !Ready(t)
    ensures IsRun(t, run) && NoRisks(run) && !NothingForgotten(After(t, run))
  {
    var key :| key in t.counters && key.account in t.accounts && Reportable(key.period, t.now) && Ahead(t, key)
               && key !in t.touched && !(key in t.flushing && IsStored(t, key));
    if key in t.flushing {
      run := FinishFlush(t, key);
      var end := After(t, run);
      assert Ahead(end, key) && !Remembered(end, key);
    } else {
      run := [];
      assert Ahead(t, key) && !Remembered(t, key);
    }
  }

  /** From any state with its basic invariant, nothing is forgotten over any later run without a risk of
      its own if and only if every live counter ahead of its row waits to be flushed. */
  lemma SafeExactly(t: State)
    requires BasicInv(t)
    ensures (forall run: Run | IsRun(t, run) && StaysReady(t, run) :: NothingForgotten(After(t, run))) <==> Ready(t)
  {
    hide Ready, NothingForgotten, FlusherCovers, PeriodsBegun;
    if Ready(t) {
      ReadyIsInv(t);
      forall run: Run | IsRun(t, run) && StaysReady(t, run) ensures NothingForgotten(After(t, run)) {
        RunKeepsInv(t, run);
        InvForgetsNothing(After(t, run));
      }
    } else {
      var run := UnreadyIsForgotten(t);
      NoRisksStayReady(t, run);
    }
  }

  /** Every live counter of the name that is ahead of its row waits to be flushed. */
  predicate ReadyFor(s: State, account: string) {
    forall key | key in s.counters && key.account == account && Reportable(key.period, s.now) && Ahead(s, key) ::
      key in s.touched || (key in s.flushing && IsStored(s, key))
  }

  /** A name is taken again: nothing is forgotten afterwards, over any run, if and only if every live
      reportable counter of the name that is ahead of its row is touched, or is being flushed with the
      flusher not past it, neither with its reading nor with its snapshot of the accounts. */
  lemma RecreationIsSafeExactly(s: State, account: string)
    requires Inv(s) && account !in s.accounts
    ensures var t := Next(s, CreateAccount(account));
            (forall run: Run | IsRun(t, run) && StaysReady(t, run) :: NothingForgotten(After(t, run)))
            <==> ReadyFor(s, account)
  {
    hide Inv, StaysReady, NothingForgotten;
    InvIsBasic(s);
    NextKeepsBasicInv(s, CreateAccount(account));
    SafeExactly(Next(s, CreateAccount(account)));
    ReadyIsInv(s);
    CreatedReady(s, account);
  }

  lemma CreatedReady(s: State, account: string)
    requires Ready(s) && account !in s.accounts && JobsOk(s)
    ensures Ready(Next(s, CreateAccount(account))) <==> ReadyFor(s, account)
  {
    hide JobsOk, Reportable;
    var t := Next(s, CreateAccount(account));
    forall key ensures Ahead(t, key) <==> Ahead(s, key) {
    }
    forall key | key in s.counters ensures IsStored(t, key) <==> IsStored(s, key) {
    }
  }

  /** The counter of an existing account that a flush has still to store. */
  predicate Outstanding(s: State, key: Key) {
    key in s.counters && key.account in s.accounts && Reportable(key.period, s.now) && Ahead(s, key)
  }

  /** Redis loses the set of touched members alone: safe if and only if each of its outstanding counters is
      also being flushed, with the flusher not past it. */
  lemma TouchedLossIsSafeExactly(s: State)
    requires Inv(s)
    ensures var t := Next(s, LoseTouched);
            (forall run: Run | IsRun(t, run) && StaysReady(t, run) :: NothingForgotten(After(t, run)))
            <==> forall key | key in s.touched && Outstanding(s, key) :: key in s.flushing && IsStored(s, key)
  {
    hide StaysReady, NothingForgotten, IsRun, After, PeriodsBegun, FlusherCovers, JobsOk, Reportable;
    var t := Next(s, LoseTouched);
    NextKeepsBasicInv(s, LoseTouched);
    SafeExactly(t);
    ReadyIsInv(s);
    forall key | key in s.counters
      ensures (Ahead(t, key) <==> Ahead(s, key)) && (IsStored(t, key) <==> IsStored(s, key))
    {
    }
  }

  /** Redis loses the set being flushed alone: safe if and only if each of its outstanding counters is also
      touched. What the flusher has in hand does not count: it may crash. */
  lemma FlushingLossIsSafeExactly(s: State)
    requires Inv(s)
    ensures var t := Next(s, LoseFlushing);
            (forall run: Run | IsRun(t, run) && StaysReady(t, run) :: NothingForgotten(After(t, run)))
            <==> forall key | key in s.flushing && Outstanding(s, key) :: key in s.touched
  {
    hide StaysReady, NothingForgotten, IsRun, After, PeriodsBegun, FlusherCovers, JobsOk, Reportable;
    var t := Next(s, LoseFlushing);
    NextKeepsBasicInv(s, LoseFlushing);
    SafeExactly(t);
    ReadyIsInv(s);
    forall key | key in s.counters ensures Ahead(t, key) <==> Ahead(s, key) {
    }
  }

  lemma InvForgetsNothing(s: State)
    requires Inv(s)
    ensures NothingForgotten(s)
  {
  }

  // --- two runs that forget --------------------------------------------------------------------

  const AT: Clock := Clock(5, 1, 1)
  const DAY: Key := DayKey("a", AT)
  const MONTH: Key := MonthKey("a", AT)
  const ONE_SENT: Counters := map[DAY := Counter(1, 0), MONTH := Counter(1, 0)]
  const NEW: State := State(map[], {}, {}, map[], {"a"}, map[], Idle, None, AT, map["a" := Limits(9, 9)])
  const SENT: State := NEW.(counters := ONE_SENT, touched := {DAY, MONTH})
  const FLUSHING: State := NEW.(counters := ONE_SENT, flushing := {DAY, MONTH})
  const GONE: State := NEW.(counters := ONE_SENT, accounts := {})

  lemma SendOne(rest: Run) returns (run: Run)
    requires IsRun(SENT, rest)
    ensures IsRun(NEW, run) && After(NEW, run) == After(SENT, rest)
  {
    var seeding := NEW.(jobs := map[0 := Job("a", AT, Seed(ZERO, ZERO))]);
    assert seeding.jobs - {0} == map[];
    run := Before(seeding, CheckSeeded(0), SENT, rest);
    run := Before(NEW, ReadSeed(0, "a", AT), seeding, run);
  }

  /** A flush of both counters, whose account is there or gone. */
  lemma FlushBoth(accounts: set<string>, rest: Run) returns (run: Run)
    requires accounts == {} || accounts == {"a"}
    requires IsRun(Flushed(accounts), rest)
    ensures IsRun(FLUSHING.(accounts := accounts), run)
    ensures After(FLUSHING.(accounts := accounts), run) == After(Flushed(accounts), rest)
  {
    run := CommitBoth(accounts, rest);
    run := ReadBoth(accounts, run);
  }

  lemma CommitBoth(accounts: set<string>, rest: Run) returns (run: Run)
    requires accounts == {} || accounts == {"a"}
    requires IsRun(Flushed(accounts), rest)
    ensures var writing := FLUSHING.(accounts := accounts, flusher := Writing(ONE_SENT, map[]));
            IsRun(writing, run) && After(writing, run) == After(Flushed(accounts), rest)
  {
    var start := FLUSHING.(accounts := accounts);
    var written := start.(flusher := Writing(map[], Flushed(accounts).rows), snapshot := Some(accounts));
    var seeing := start.(flusher := Writing(ONE_SENT, map[]), snapshot := Some(accounts));
    run := CommitWritten(accounts, rest);
    UpsertBoth(accounts);
    var t := Next(seeing, UpsertBatch({DAY, MONTH}));
    assert forall key | key in ONE_SENT :: key.account == "a";
    assert t.flusher.tx == Flushed(accounts).rows && t.flusher.rest == map[];
    run := Before(seeing, UpsertBatch({DAY, MONTH}), written, run);
    run := Before(start.(flusher := Writing(ONE_SENT, map[])), TakeSnapshot, seeing, run);
  }

  lemma CommitWritten(accounts: set<string>, rest: Run) returns (run: Run)
    requires accounts == {} || accounts == {"a"}
    requires IsRun(Flushed(accounts), rest)
    ensures var written := FLUSHING.(accounts := accounts, flusher := Writing(map[], Flushed(accounts).rows),
                                     snapshot := Some(accounts));
            IsRun(written, run) && After(written, run) == After(Flushed(accounts), rest)
  {
    var start := FLUSHING.(accounts := accounts);
    var done := start.(flusher := Committed, rows := Flushed(accounts).rows);
    run := Before(done, DeleteFlushing, Flushed(accounts), rest);
    UpsertBoth(accounts);
    var written := start.(flusher := Writing(map[], Flushed(accounts).rows), snapshot := Some(accounts));
    run := Before(written, Commit, done, run);
  }

  function Flushed(accounts: set<string>): State {
    FLUSHING.(accounts := accounts, flushing := {}, rows := if "a" in accounts then ONE_SENT else map[])
  }

  lemma UpsertBoth(accounts: set<string>)
    requires accounts == {} || accounts == {"a"}
    ensures ONE_SENT - {DAY, MONTH} == map[]
    ensures (map key | key in {DAY, MONTH} && key.account in accounts :: ONE_SENT[key]) == Flushed(accounts).rows
    ensures Upserted(map[], Flushed(accounts).rows) == Flushed(accounts).rows
  {
  }

  lemma ReadBoth(accounts: set<string>, rest: Run) returns (run: Run)
    requires IsRun(FLUSHING.(accounts := accounts, flusher := Writing(ONE_SENT, map[])), rest)
    ensures IsRun(FLUSHING.(accounts := accounts), run)
    ensures After(FLUSHING.(accounts := accounts), run) ==
            After(FLUSHING.(accounts := accounts, flusher := Writing(ONE_SENT, map[])), rest)
  {
    var start := FLUSHING.(accounts := accounts);
    var all := start.(flusher := Reading({DAY, MONTH}, map[]));
    var half := start.(flusher := Reading({MONTH}, map[DAY := Counter(1, 0)]));
    var none := start.(flusher := Reading({}, ONE_SENT));
    assert {DAY, MONTH} - {DAY} == {MONTH} && {MONTH} - {MONTH} == {};
    assert map[DAY := Counter(1, 0)][MONTH := Counter(1, 0)] == ONE_SENT;
    assert (set key | key in start.flushing && Reportable(key.period, AT)) == {DAY, MONTH};
    run := Before(none, StartWriting, start.(flusher := Writing(ONE_SENT, map[])), rest);
    run := Before(half, ReadCounter(MONTH), none, run);
    run := Before(all, ReadCounter(DAY), half, run);
    run := Before(start, ReadMembers, all, run);
  }

  lemma CreateOverCounters() returns (run: Run)
    ensures IsRun(GONE, run) && !NothingForgotten(After(GONE, run))
  {
    var t := GONE.(accounts := {"a"});
    run := Before(GONE, CreateAccount("a"), t, []);
    assert Ahead(t, DAY) && !Remembered(t, DAY);
  }

  /** The account is deleted while its counters are being flushed, which drops its rows, and made again
      after the flush. */
  lemma RecreatedAfterItsFlush() returns (run: Run)
    ensures Initial(NEW) && IsRun(NEW, run) && !NothingForgotten(After(NEW, run))
  {
    assert Flushed({}) == GONE;
    run := CreateOverCounters();
    run := FlushBoth({}, run);
    run := Before(FLUSHING, DeleteAccount("a"), FLUSHING.(accounts := {}), run) by { DeletesAll(FLUSHING); }
    run := Before(SENT, Rename, FLUSHING, run);
    run := SendOne(run);
  }

  lemma DeletesAll(s: State)
    requires s.accounts == {"a"} && (s.rows == map[] || s.rows == ONE_SENT)
    ensures s.accounts - {"a"} == {} && (map key | key in s.rows && key.account != "a" :: s.rows[key]) == map[]
  {
  }

  /** Everything is flushed and the flusher idle, with both sets empty, when the account is deleted and
      made again. */
  lemma RecreatedWhileIdle() returns (run: Run)
    ensures Initial(NEW) && IsRun(NEW, run) && !NothingForgotten(After(NEW, run))
  {
    run := CreateOverCounters();
    run := Before(Flushed({"a"}), DeleteAccount("a"), GONE, run) by { DeletesAll(Flushed({"a"})); }
    run := FlushBoth({"a"}, run);
    run := Before(SENT, Rename, FLUSHING, run);
    run := SendOne(run);
  }

  // --- rows only grow ------------------------------------------------------------------------

  predicate Deletes(action: Action, key: Key) {
    (action.DeleteAccount? && action.account == key.account) || (action.Prune? && key in action.keys)
  }

  lemma {:induction false} StoredNeverDecreases(s: State, run: Run, key: Key)
    requires IsRun(s, run)
    requires forall i | 0 <= i < |run| :: !Deletes(run[i], key)
    ensures AtMost(CountOf(s.rows, key), CountOf(After(s, run).rows, key))
    ensures key in s.rows ==> key in After(s, run).rows
    decreases |run|
  {
    if run != [] {
      StepKeepsStored(s, run[0], key);
      assert forall i | 0 <= i < |run[1..]| :: run[1..][i] == run[i + 1];
      StoredNeverDecreases(Next(s, run[0]), run[1..], key);
    }
  }

  lemma StepKeepsStored(s: State, action: Action, key: Key)
    requires JobsOk(s) && Enabled(s, action) && !Deletes(action, key)
    ensures AtMost(CountOf(s.rows, key), CountOf(Next(s, action).rows, key))
    ensures key in s.rows ==> key in Next(s, action).rows
  {
  }

  // --- how many a period accepts -------------------------------------------------------------

  predicate Uses(account: string, at: Clock, key: Key) {
    key == DayKey(account, at) || key == MonthKey(account, at)
  }

  function SeedOf(seed: Option<Seed>, key: Key): nat {
    if seed.None? then 0 else if key.period.Day? then seed.value.day.sent else seed.value.month.sent
  }

  function ScriptAccepts(s: State, account: string, at: Clock, seed: Option<Seed>, key: Key): nat
    requires account in s.limits
  {
    if Uses(account, at, key)
       && ScriptVerdict(s.counters, DayKey(account, at), MonthKey(account, at), s.limits[account], seed) == Sent
    then 1 else 0
  }

  /** What a script run starts the counter from, when it starts it. */
  function ScriptSeeds(s: State, account: string, at: Clock, seed: Option<Seed>, key: Key): nat {
    if Uses(account, at, key) && seed.Some? && key !in s.counters then SeedOf(seed, key) else 0
  }

  /** 1 when the action accepts a recipient that counts for `key`. */
  function Accepts(s: State, action: Action, key: Key): nat
    requires Enabled(s, action) && JobsOk(s)
  {
    match action
    case Check(account, at) => ScriptAccepts(s, account, at, None, key)
    case CheckSeeded(worker) =>
      ScriptAccepts(s, s.jobs[worker].account, s.jobs[worker].at, Some(s.jobs[worker].seed), key)
    case _ => 0
  }

  /** The count when Redis loses it, less the seed a lost counter restarts from. */
  function Forgives(s: State, action: Action, key: Key): int
    requires Enabled(s, action) && JobsOk(s)
  {
    match action
    case LoseAll => CountOf(s.counters, key).sent
    case LoseCounter(lost) => if lost == key then CountOf(s.counters, key).sent else 0
    case CheckSeeded(worker) =>
      -(ScriptSeeds(s, s.jobs[worker].account, s.jobs[worker].at, Some(s.jobs[worker].seed), key) as int)
    case _ => 0
  }

  function AcceptedIn(s: State, run: Run, key: Key): nat
    requires IsRun(s, run)
    decreases |run|
  {
    if run == [] then 0 else Accepts(s, run[0], key) + AcceptedIn(Next(s, run[0]), run[1..], key)
  }

  function ForgivenIn(s: State, run: Run, key: Key): int
    requires IsRun(s, run)
    decreases |run|
  {
    if run == [] then 0 else Forgives(s, run[0], key) + ForgivenIn(Next(s, run[0]), run[1..], key)
  }

  lemma ScriptCounts(s: State, account: string, at: Clock, seed: Option<Seed>, key: Key)
    requires account in s.limits
    ensures CountOf(RunScript(s, account, at, seed).counters, key).sent ==
            CountOf(s.counters, key).sent + ScriptAccepts(s, account, at, seed, key) +
                ScriptSeeds(s, account, at, seed, key)
  {
  }

  lemma StepCounts(s: State, action: Action, key: Key)
    requires Enabled(s, action) && JobsOk(s)
    ensures CountOf(Next(s, action).counters, key).sent ==
            CountOf(s.counters, key).sent + Accepts(s, action, key) - Forgives(s, action, key)
  {
    match action
    case Check(account, at) => ScriptCounts(s, account, at, None, key);
    case CheckSeeded(worker) =>
      ScriptCounts(s.(jobs := s.jobs - {worker}), s.jobs[worker].account, s.jobs[worker].at, Some(s.jobs[worker].seed),
          key);
    case _ =>
  }

  /** Conservation: recipients accepted are counted now or were forgiven by a loss. */
  lemma {:induction false} AcceptedIsCounted(s: State, run: Run, key: Key)
    requires IsRun(s, run)
    ensures AcceptedIn(s, run, key) ==
            CountOf(After(s, run).counters, key).sent - CountOf(s.counters, key).sent + ForgivenIn(s, run, key)
    decreases |run|
  {
    hide Enabled, Next, Accepts, Forgives, JobsOk;
    if run != [] {
      StepCounts(s, run[0], key);
      AcceptedIsCounted(Next(s, run[0]), run[1..], key);
    }
  }

  function LimitOf(limits: map<string, Limits>, key: Key): nat
    requires key.account in limits
  {
    if key.period.Day? then limits[key.account].daily else limits[key.account].monthly
  }

  predicate WithinLimits(limits: map<string, Limits>, counters: Counters) {
    forall key | key in counters :: key.account in limits && counters[key].sent <= LimitOf(limits, key)
  }

  predicate JobsWithinLimits(s: State) {
    JobsOk(s) && forall worker | worker in s.jobs ::
      var job := s.jobs[worker];
      job.seed.day.sent <= s.limits[job.account].daily && job.seed.month.sent <= s.limits[job.account].monthly
  }

  predicate FlusherWithinLimits(s: State) {
    match s.flusher
    case Reading(todo, read) => WithinLimits(s.limits, read)
    case Writing(rest, tx) => WithinLimits(s.limits, rest) && WithinLimits(s.limits, tx)
    case _ => true
  }

  predicate AllWithinLimits(s: State) {
    WithinLimits(s.limits, s.counters) && WithinLimits(s.limits, s.rows) && JobsWithinLimits(s)
        && FlusherWithinLimits(s)
  }

  lemma ScriptKeepsLimits(s: State, account: string, at: Clock, seed: Option<Seed>)
    requires AllWithinLimits(s) && account in s.limits
    requires seed.Some? ==>
               seed.value.day.sent <= s.limits[account].daily && seed.value.month.sent <= s.limits[account].monthly
    ensures AllWithinLimits(RunScript(s, account, at, seed))
  {
  }

  lemma NextKeepsLimits(s: State, action: Action)
    requires AllWithinLimits(s) && Enabled(s, action) && JobsOk(s)
    ensures Next(s, action).limits == s.limits
    ensures JobsOk(Next(s, action)) ==> AllWithinLimits(Next(s, action))
  {
    hide AllWithinLimits, ScriptCounters, ScriptVerdict;
    if action.Check? {
      ScriptKeepsLimits(s, action.account, action.at, None);
    } else if action.CheckSeeded? {
      SeededKeepsLimits(s, action.worker);
    } else if Reads(action) {
      ReadsKeepLimits(s, action);
    } else if Writes(action) {
      WritesKeepLimits(s, action);
    } else {
      OthersKeepLimits(s, action);
    }
  }

  lemma SeededKeepsLimits(s: State, worker: nat)
    requires AllWithinLimits(s) && worker in s.jobs && JobsOk(s)
    ensures AllWithinLimits(Next(s, CheckSeeded(worker))) && Next(s, CheckSeeded(worker)).limits == s.limits
  {
    hide ScriptCounters, ScriptVerdict;
    ScriptKeepsLimits(s.(jobs := s.jobs - {worker}), s.jobs[worker].account, s.jobs[worker].at,
        Some(s.jobs[worker].seed));
  }

  lemma ReadsKeepLimits(s: State, action: Action)
    requires AllWithinLimits(s) && Enabled(s, action) && JobsOk(s) && Reads(action)
    ensures AllWithinLimits(Next(s, action)) && Next(s, action).limits == s.limits
  {
  }

  lemma WritesKeepLimits(s: State, action: Action)
    requires AllWithinLimits(s) && Enabled(s, action) && JobsOk(s) && Writes(action)
    ensures AllWithinLimits(Next(s, action)) && Next(s, action).limits == s.limits
  {
  }

  lemma OthersKeepLimits(s: State, action: Action)
    requires AllWithinLimits(s) && Enabled(s, action) && JobsOk(s) && !Reads(action) && !Writes(action)
    requires !action.Check? && !action.CheckSeeded?
    ensures AllWithinLimits(Next(s, action)) && Next(s, action).limits == s.limits
  {
  }

  lemma {:induction false} RunKeepsLimits(s: State, run: Run)
    requires BasicInv(s) && AllWithinLimits(s) && IsRun(s, run)
    ensures AllWithinLimits(After(s, run)) && After(s, run).limits == s.limits
    decreases |run|
  {
    hide Enabled, Next, AllWithinLimits, PeriodsBegun;
    if run != [] {
      NextKeepsBasicInv(s, run[0]);
      NextKeepsLimits(s, run[0]);
      RunKeepsLimits(Next(s, run[0]), run[1..]);
    }
  }

  /** With a constant limit, the recipients accepted in a period never pass the limit plus what
      Redis losses forgave: the count at each loss less the seed it restarted from. */
  lemma AcceptedWithinLimit(s: State, run: Run, key: Key)
    requires Initial(s) && IsRun(s, run) && key.account in s.limits
    ensures AcceptedIn(s, run, key) <= LimitOf(s.limits, key) + ForgivenIn(s, run, key)
  {
    InitialIsInv(s);
    RunKeepsLimits(s, run);
    AcceptedIsCounted(s, run, key);
  }

  predicate LosesNothing(run: Run) {
    forall i | 0 <= i < |run| :: !run[i].LoseAll? && !run[i].LoseCounter?
  }

  lemma {:induction false} NothingForgiven(s: State, run: Run, key: Key)
    requires IsRun(s, run) && LosesNothing(run)
    ensures ForgivenIn(s, run, key) <= 0
    decreases |run|
  {
    hide Enabled, Next, JobsOk;
    if run != [] {
      assert forall i | 0 <= i < |run[1..]| :: run[1..][i] == run[i + 1];
      NothingForgiven(Next(s, run[0]), run[1..], key);
    }
  }

  /** Without losses the limit is never exceeded, however many workers race to seed the counter. */
  lemma LimitHoldsWithoutLosses(s: State, run: Run, key: Key)
    requires Initial(s) && IsRun(s, run) && LosesNothing(run) && key.account in s.limits
    ensures AcceptedIn(s, run, key) <= LimitOf(s.limits, key)
  {
    AcceptedWithinLimit(s, run, key);
    NothingForgiven(s, run, key);
  }

  // --- what a period does accept -----------------------------------------------------------------

  /** A script run that counts a recipient of the account on this day and in this month. */
  predicate Attempts(s: State, action: Action, account: string, at: Clock) {
    match action
    case Check(a, c) => a == account && c.day == at.day
    case CheckSeeded(worker) =>
      worker in s.jobs && s.jobs[worker].account == account && s.jobs[worker].at.day == at.day
    case _ => false
  }

  /** Every clock of the day is in the same month. */
  predicate OneMonth(s: State, action: Action, account: string, at: Clock) {
    Attempts(s, action, account, at) ==>
      match action
      case Check(_, c) => c.month == at.month
      case CheckSeeded(worker) => s.jobs[worker].at.month == at.month
      case _ => true
  }

  /** With both counters there, a recipient is accepted if and only if both are below their limits, and
      whatever seed a worker brings changes nothing. */
  lemma AttemptIsAcceptedExactly(s: State, action: Action, account: string, at: Clock)
    requires Enabled(s, action) && JobsOk(s) && account in s.limits
    requires Attempts(s, action, account, at) && OneMonth(s, action, account, at)
    requires Key(account, Day(at.day)) in s.counters && Key(account, Month(at.month)) in s.counters
    ensures var day, month := Key(account, Day(at.day)), Key(account, Month(at.month));
            Accepts(s, action, day) ==
            if s.counters[day].sent < s.limits[account].daily && s.counters[month].sent < s.limits[account].monthly
            then 1 else 0
  {
  }

  lemma NoAttemptIsNotAccepted(s: State, action: Action, account: string, at: Clock)
    requires Enabled(s, action) && JobsOk(s) && !Attempts(s, action, account, at)
    ensures Accepts(s, action, Key(account, Day(at.day))) == 0
  {
  }

  function AttemptsIn(s: State, run: Run, account: string, at: Clock): nat
    requires IsRun(s, run)
    decreases |run|
  {
    if run == [] then 0
    else (if Attempts(s, run[0], account, at) then 1 else 0) + AttemptsIn(Next(s, run[0]), run[1..], account, at)
  }

  predicate OneMonthIn(s: State, run: Run, account: string, at: Clock)
    requires IsRun(s, run)
    decreases |run|
  {
    run == [] || (OneMonth(s, run[0], account, at) && OneMonthIn(Next(s, run[0]), run[1..], account, at))
  }

  lemma CountersStay(s: State, action: Action, key: Key)
    requires Enabled(s, action) && JobsOk(s) && !action.LoseAll? && !action.LoseCounter? && key in s.counters
    ensures key in Next(s, action).counters && Forgives(s, action, key) == 0
    ensures Next(s, action).limits == s.limits
  {
  }

  lemma {:induction false} CountNeverFalls(s: State, run: Run, key: Key)
    requires IsRun(s, run) && LosesNothing(run) && key in s.counters
    ensures key in After(s, run).counters && s.counters[key].sent <= After(s, run).counters[key].sent
    decreases |run|
  {
    hide Enabled, Next, JobsOk, Accepts, Forgives;
    if run != [] {
      CountersStay(s, run[0], key);
      StepCounts(s, run[0], key);
      assert forall i | 0 <= i < |run[1..]| :: run[1..][i] == run[i + 1];
      CountNeverFalls(Next(s, run[0]), run[1..], key);
    }
  }

  function Least(a: nat, b: nat): nat {
    if a < b then a else b
  }

  /** Once both counters are there and Redis loses nothing, as long as the month's limit is not reached:
      of the recipients of a day exactly as many are accepted as the day's limit leaves, whatever happens
      in between. */
  lemma {:induction false} AcceptsUpToTheLimit(s: State, run: Run, account: string, at: Clock)
    requires IsRun(s, run) && LosesNothing(run) && account in s.limits && OneMonthIn(s, run, account, at)
    requires Key(account, Day(at.day)) in s.counters && Key(account, Month(at.month)) in s.counters
    requires CountOf(After(s, run).counters, Key(account, Month(at.month))).sent < s.limits[account].monthly
    ensures var sent, daily := s.counters[Key(account, Day(at.day))].sent, s.limits[account].daily;
            AcceptedIn(s, run, Key(account, Day(at.day))) ==
            Least(AttemptsIn(s, run, account, at), if sent < daily then daily - sent else 0)
    decreases |run|
  {
    hide Enabled, Next, JobsOk, Accepts, Forgives, Attempts, OneMonth;
    if run != [] {
      var day, month := Key(account, Day(at.day)), Key(account, Month(at.month));
      var t := Next(s, run[0]);
      CountersStay(s, run[0], day);
      CountersStay(s, run[0], month);
      StepCounts(s, run[0], day);
      CountNeverFalls(s, run, month);
      assert forall i | 0 <= i < |run[1..]| :: run[1..][i] == run[i + 1];
      AcceptsUpToTheLimit(t, run[1..], account, at);
      if Attempts(s, run[0], account, at) {
        AttemptIsAcceptedExactly(s, run[0], account, at);
      } else {
        NoAttemptIsNotAccepted(s, run[0], account, at);
      }
    }
  }

  /** A seed is what the rows hold. */
  lemma SeedIsStored(s: State, worker: nat, account: string, at: Clock)
    requires Enabled(s, ReadSeed(worker, account, at)) && JobsOk(s)
    ensures var job := Next(s, ReadSeed(worker, account, at)).jobs[worker];
            && job.account == account && job.at == at
            && job.seed.day == CountOf(s.rows, Key(account, Day(at.day)))
            && job.seed.month == CountOf(s.rows, Key(account, Month(at.month)))
  {
  }

  // --- expired rows ----------------------------------------------------------------------------

  /** The flusher has nothing of the key in hand. */
  predicate NotInHand(flusher: Flusher, key: Key) {
    match flusher
    case Reading(todo, read) => key !in todo && key !in read
    case Writing(rest, tx) => key !in rest && key !in tx
    case _ => true
  }

  lemma StaysExpired(s: State, action: Action, key: Key)
    requires JobsOk(s) && Enabled(s, action) && Begun(key.period, s.now) && !Reportable(key.period, s.now)
    requires key !in s.rows && NotInHand(s.flusher, key)
    ensures var t := Next(s, action);
            Begun(key.period, t.now) && !Reportable(key.period, t.now) && key !in t.rows && NotInHand(t.flusher, key)
  {
  }

  /** A period's row that was pruned once the period was no longer reportable never comes back, whatever is
      still counted or flushed of it. */
  lemma {:induction false} PrunedStaysPruned(s: State, run: Run, key: Key)
    requires IsRun(s, run) && Begun(key.period, s.now) && !Reportable(key.period, s.now)
    requires key !in s.rows && NotInHand(s.flusher, key)
    ensures key !in After(s, run).rows
    decreases |run|
  {
    hide Enabled, Next, JobsOk, Reportable, Begun;
    if run != [] {
      StaysExpired(s, run[0], key);
      PrunedStaysPruned(Next(s, run[0]), run[1..], key);
    }
  }
}
