/** Queued pushes lose no change and never go backwards. */
module ConfigPushTheorems {
  import opened Wrappers
  import opened ConfigPush

  lemma NextKeepsLock(s: State, action: Action)
    requires LockOk(s) && Enabled(s, action)
    ensures LockOk(Next(s, action))
  {
  }

  lemma NextKeepsMark(s: State, action: Action)
    requires MarkOk(s) && Enabled(s, action) && !IsKill(action)
    ensures MarkOk(Next(s, action))
  {
    var t := Next(s, action);
    if t.mark && t.marking == 0 {
      if s.mark && s.marking == 0 {
        var job :| job in s.jobs && (s.jobs[job].Waiting? || s.jobs[job].Starting?);
        assert job in t.jobs && (t.jobs[job].Waiting? || t.jobs[job].Starting?);
      } else {
        assert action.Enqueue?;
        assert t.jobs[action.job].Waiting?;
      }
    }
  }

  lemma NextKeepsVersions(s: State, action: Action)
    requires VersionsOk(s) && HolderOk(s) && LockOk(s) && Enabled(s, action)
    ensures VersionsOk(Next(s, action))
  {
  }

  lemma NextKeepsHolder(s: State, action: Action)
    requires VersionsOk(s) && HolderOk(s) && LockOk(s) && Enabled(s, action)
    ensures HolderOk(Next(s, action))
  {
  }

  /** The job that covered a version still does, except where an action hands the duty on. */
  lemma NextCovers(s: State, action: Action, version: nat)
    requires Inv(s) && Enabled(s, action) && !IsKill(action)
    requires Next(s, action).applied < version <= Next(s, action).committed
    ensures Covered(Next(s, action), version)
  {
    var t := Next(s, action);
    if action.Save? {
      assert t.hooks > 0;
    } else if t.hooks == 0 && t.marking == 0 {
      assert s.applied < version <= s.committed;
      assert Covered(s, version);
      if action.RunHook? {
        assert s.mark;
        var job :| job in s.jobs && (s.jobs[job].Waiting? || s.jobs[job].Starting?);
        assert JobCovers(t.jobs[job], version);
      } else if action.Enqueue? {
        assert JobCovers(t.jobs[action.job], version);
      } else if s.failure.Some? && version <= s.failure.value {
        assert t.failure.Some? && version <= t.failure.value;
      } else {
        var job :| job in s.jobs && JobCovers(s.jobs[job], version);
        if job in t.jobs {
          assert JobCovers(t.jobs[job], version);
        } else {
          assert action.Record?;
        }
      }
    }
  }

  lemma NextKeepsBasicInv(s: State, action: Action)
    requires BasicInv(s) && Enabled(s, action)
    ensures BasicInv(Next(s, action)) && s.applied <= Next(s, action).applied
  {
    NextKeepsLock(s, action);
    NextKeepsVersions(s, action);
    NextKeepsHolder(s, action);
  }

  /** Who covers the newest version covers every older one. */
  lemma BackedIsInv(s: State)
    requires BasicInv(s) && Backed(s)
    ensures Inv(s)
  {
    forall version: nat | s.applied < version <= s.committed ensures Covered(s, version) {
      assert Covered(s, s.committed);
      if s.hooks == 0 && s.marking == 0 && !(s.failure.Some? && s.committed <= s.failure.value) {
        var job :| job in s.jobs && JobCovers(s.jobs[job], s.committed);
        assert JobCovers(s.jobs[job], version);
      }
    }
  }

  lemma NextKeepsInv(s: State, action: Action)
    requires Inv(s) && Enabled(s, action) && (IsKill(action) ==> Backed(Next(s, action)))
    ensures Inv(Next(s, action))
  {
    hide LockOk, VersionsOk, HolderOk, Covered, MarkOk;
    var t := Next(s, action);
    NextKeepsBasicInv(s, action);
    if IsKill(action) {
      BackedIsInv(t);
    } else {
      NextKeepsMark(s, action);
      forall version: nat | t.applied < version <= t.committed ensures Covered(t, version) {
        NextCovers(s, action, version);
      }
    }
  }

  lemma {:induction false} RunKeepsInv(s: State, run: Run)
    requires Inv(s) && IsRun(s, run) && KillsBacked(s, run)
    ensures Inv(After(s, run))
    decreases |run|
  {
    hide Inv, Enabled, Next, Backed;
    if run != [] {
      NextKeepsInv(s, run[0]);
      RunKeepsInv(Next(s, run[0]), run[1..]);
    }
  }

  lemma {:induction false} RunKeepsBasicInv(s: State, run: Run)
    requires BasicInv(s) && IsRun(s, run)
    ensures BasicInv(After(s, run)) && s.applied <= After(s, run).applied
    decreases |run|
  {
    hide BasicInv, Enabled, Next;
    if run != [] {
      NextKeepsBasicInv(s, run[0]);
      RunKeepsBasicInv(Next(s, run[0]), run[1..]);
    }
  }

  lemma InitialIsInv(s: State)
    requires Initial(s) && s.failure.None?
    ensures Inv(s)
  {
  }

  /** A job that has not read yet, or holds the lock with everything committed. */
  predicate WillBring(s: State, job: nat) {
    job in s.jobs &&
    (|| s.jobs[job].Waiting? || s.jobs[job].Starting? || s.jobs[job].Unlocked? || s.jobs[job].Locked?
     || s.jobs[job] == Holding(s.committed))
  }

  predicate HasFailed(s: State) {
    s.failure.Some? || exists job | job in s.jobs :: s.jobs[job].Raised? || s.jobs[job].Failing?
  }

  /** Whenever the cluster is behind the committed configuration, a hook is to run or about to queue
      its job, a job will still read, the lock's holder has everything committed, or a failure is on
      record or about to be: over every run in which who is killed leaves its changes to another. In
      particular, once all is quiet and no failure shows, the cluster holds the committed
      configuration. */
  lemma NoChangeIsLost(s: State, run: Run)
    requires Initial(s) && s.failure.None? && IsRun(s, run) && KillsBacked(s, run)
    ensures var t := After(s, run);
            && t.applied <= t.committed
            && (t.applied < t.committed ==>
                  t.hooks > 0 || t.marking > 0 || (exists job | job in t.jobs :: WillBring(t, job)) || HasFailed(t))
            && (t.hooks == 0 && t.marking == 0 && t.jobs == map[] && t.failure.None? ==> t.applied == t.committed)
  {
    InitialIsInv(s);
    RunKeepsInv(s, run);
    var t := After(s, run);
    if t.applied < t.committed {
      assert Covered(t, t.committed);
      if t.hooks == 0 && t.marking == 0 && !HasFailed(t) {
        var job :| job in t.jobs && JobCovers(t.jobs[job], t.committed);
        assert WillBring(t, job);
      }
    }
  }

  /** The snapshot the cluster runs on never becomes older, whoever is killed. */
  lemma NeverBackwards(s: State, run: Run)
    requires Initial(s) && s.failure.None? && IsRun(s, run)
    ensures forall i | 0 <= i <= |run| ::
              IsRun(s, run[..i]) && After(s, run[..i]).applied <= After(s, run).applied
  {
    hide Next, Enabled, BasicInv;
    InitialIsBasic(s);
    forall i | 0 <= i <= |run|
      ensures IsRun(s, run[..i]) && After(s, run[..i]).applied <= After(s, run).applied
    {
      RunSplits(s, run, i);
      RunKeepsBasicInv(s, run[..i]);
      RunKeepsBasicInv(After(s, run[..i]), run[i..]);
    }
  }

  lemma InitialIsBasic(s: State)
    requires Initial(s) && s.failure.None?
    ensures BasicInv(s)
  {
  }

  lemma {:induction false} RunSplits(s: State, run: Run, i: nat)
    requires IsRun(s, run) && i <= |run|
    ensures IsRun(s, run[..i]) && IsRun(After(s, run[..i]), run[i..])
    ensures After(After(s, run[..i]), run[i..]) == After(s, run)
    decreases |run|
  {
    hide Next, Enabled;
    if i == 0 {
      assert run[..0] == [] && run[0..] == run;
    } else {
      assert run[..i] == [run[0]] + run[1..][..i - 1] && run[i..] == run[1..][i - 1..];
      RunSplits(Next(s, run[0]), run[1..], i - 1);
    }
  }

  // --- killed jobs -------------------------------------------------------------------------------

  /** Nothing is lost from here on, whatever happens, as long as no further kill loses anything. */
  ghost predicate LosesNothing(s: State) {
    forall run: Run | IsRun(s, run) && KillsBacked(s, run) :: !Loses(After(s, run))
  }

  /** After any run, whoever was killed in it, nothing is lost from there on if and only if no
      mark is left that stands for no job, and the newest change is covered. */
  lemma LosesNothingExactly(s: State, run: Run)
    requires Initial(s) && s.failure.None? && IsRun(s, run)
    ensures LosesNothing(After(s, run)) <==> Backed(After(s, run))
  {
    hide Backed, Loses, BasicInv, Inv;
    var t := After(s, run);
    InitialIsBasic(s);
    RunKeepsBasicInv(s, run);
    if Backed(t) {
      BackedIsInv(t);
      forall more: Run | IsRun(t, more) && KillsBacked(t, more) ensures !Loses(After(t, more)) {
        RunKeepsInv(t, more);
        InvLosesNothing(After(t, more));
      }
    } else {
      var more := UnbackedLoses(t);
    }
  }

  lemma InvLosesNothing(s: State)
    requires Inv(s)
    ensures !Loses(s)
  {
  }

  lemma Before(s: State, action: Action, run: Run) returns (longer: Run)
    requires Enabled(s, action) && !IsKill(action) && IsRun(Next(s, action), run) && KillsBacked(Next(s, action), run)
    ensures longer == [action] + run && IsRun(s, longer) && KillsBacked(s, longer)
    ensures After(s, longer) == After(Next(s, action), run)
  {
    longer := [action] + run;
  }

  lemma UnbackedLoses(s: State) returns (run: Run)
    requires BasicInv(s) && !Backed(s)
    ensures IsRun(s, run) && KillsBacked(s, run) && Loses(After(s, run))
  {
    hide BasicInv, Loses, MarkOk;
    if Loses(s) {
      run := [];
    } else if exists job :: At(s, job, Locked) {
      var job :| At(s, job, Locked);
      ReadKeeps(s, job);
      run := SaveIsLost(Next(s, Read(job)));
      run := Before(s, Read(job), run);
    } else {
      run := SaveIsLost(s);
    }
  }

  lemma ReadKeeps(s: State, job: nat)
    requires BasicInv(s) && At(s, job, Locked) && !MarkOk(s)
    ensures var t := Next(s, Read(job)); BasicInv(t) && !MarkOk(t) && !exists other :: At(t, other, Locked)
  {
    NextKeepsBasicInv(s, Read(job));
    var t := Next(s, Read(job));
    forall other | other in t.jobs
      ensures !t.jobs[other].Locked? && !t.jobs[other].Waiting? && !t.jobs[other].Starting?
    {
      assert other != job ==> t.jobs[other] == s.jobs[other];
    }
  }

  /** Under a mark that stands for no job, the hook of the next save queues none. */
  lemma SaveIsLost(s: State) returns (run: Run)
    requires BasicInv(s) && !MarkOk(s) && !exists job :: At(s, job, Locked)
    ensures IsRun(s, run) && KillsBacked(s, run) && Loses(After(s, run))
  {
    var t := Next(s, Save);
    assert !exists job | job in t.jobs :: JobCovers(t.jobs[job], t.committed) by {
      forall job | job in t.jobs ensures !JobCovers(t.jobs[job], t.committed) {
        assert !At(s, job, Locked);
      }
    }
    run := HooksRun(t);
    run := Before(s, Save, run);
  }

  lemma {:induction false} HooksRun(s: State) returns (run: Run)
    requires s.mark && s.marking == 0 && s.applied < s.committed
    requires !exists job | job in s.jobs :: JobCovers(s.jobs[job], s.committed)
    requires s.failure.Some? ==> s.failure.value < s.committed
    ensures IsRun(s, run) && KillsBacked(s, run) && Loses(After(s, run))
    decreases s.hooks
  {
    if s.hooks == 0 {
      run := [];
    } else {
      run := HooksRun(Next(s, RunHook));
      run := Before(s, RunHook, run);
    }
  }

  /** A job is killed after it cleared its mark: all is quiet, no failure shows, and the change is not on
      the cluster. */
  lemma KilledJobLosesChange() returns (s: State, run: Run)
    ensures Initial(s) && s.failure.None? && IsRun(s, run)
    ensures var t := After(s, run);
            && t.hooks == 0 && t.marking == 0 && !t.mark && t.jobs == map[] && t.failure.None?
            && t.applied < t.committed
  {
    hide IsRun, After, Enabled, Next;
    s := State(0, 0, false, 0, 0, map[], None, 0, None);
    var marked := s.(committed := 1, mark := true, marking := 1);
    var queued := s.(committed := 1, mark := true, jobs := map[0 := Waiting]);
    EnqueuedFirst(marked, queued);
    SavedFirst(s, marked);
    run := QueuedJobDies(queued, s.(committed := 1));
    run := First(marked, Enqueue(0), queued, run);
    run := First(s.(committed := 1, hooks := 1), RunHook, marked, run);
    run := First(s, Save, s.(committed := 1, hooks := 1), run);
  }

  lemma EnqueuedFirst(marked: State, queued: State)
    requires marked.marking == 1 && marked.jobs == map[] && marked.lock == None
    requires queued == marked.(marking := 0, jobs := map[0 := Waiting])
    ensures Enabled(marked, Enqueue(0)) && Next(marked, Enqueue(0)) == queued
  {
    assert marked.jobs[0 := Waiting] == map[0 := Waiting];
  }

  lemma SavedFirst(s: State, marked: State)
    requires !s.mark && s.hooks == 0 && s.marking == 0
    requires marked == s.(committed := s.committed + 1, mark := true, marking := 1)
    ensures var saved := s.(committed := s.committed + 1, hooks := 1);
            Enabled(s, Save) && Next(s, Save) == saved && Enabled(saved, RunHook) && Next(saved, RunHook) == marked
  {
  }

  lemma QueuedJobDies(queued: State, lost: State) returns (run: Run)
    requires queued.jobs == map[0 := Waiting] && lost == queued.(mark := false, jobs := map[])
    ensures IsRun(queued, run) && After(queued, run) == lost
  {
    hide IsRun, After;
    var started := queued.(jobs := map[0 := Starting]);
    var cleared := lost.(jobs := map[0 := Unlocked(queued.committed, queued.acquired)]);
    NoSteps(lost);
    run := First(cleared, Kill(0, false), lost, []);
    run := First(started, ClearMark(0), cleared, run);
    run := First(queued, Start(0), started, run);
  }

  lemma NoSteps(s: State)
    ensures IsRun(s, []) && After(s, []) == s
  {
  }

  lemma First(s: State, action: Action, t: State, run: Run) returns (longer: Run)
    requires Enabled(s, action) && Next(s, action) == t && IsRun(t, run)
    ensures longer == [action] + run && IsRun(s, longer) && After(s, longer) == After(t, run)
  {
    longer := [action] + run;
  }

  // --- catching up -----------------------------------------------------------------------------

  /** No further change, nobody killed, refused or failing. */
  predicate IsCalm(run: Run) {
    forall i | 0 <= i < |run| :: KeepsCalm(run[i])
  }

  predicate KeepsCalm(action: Action) {
    || action.RunHook? || action.Enqueue? || action.Start? || action.ClearMark? || action.Acquire? || action.Read?
    || action.Apply? || action.Release? || action.Record? || action.ExpireLock?
  }

  lemma CalmFirst(s: State, action: Action, run: Run) returns (longer: Run)
    requires Enabled(s, action) && IsRun(Next(s, action), run) && IsCalm(run) && KeepsCalm(action)
    ensures longer == [action] + run && IsRun(s, longer) && IsCalm(longer)
    ensures After(s, longer) == After(Next(s, action), run)
  {
    longer := [action] + run;
  }

  lemma {:induction false} RunsJoin(s: State, run: Run, more: Run)
    requires IsRun(s, run) && IsRun(After(s, run), more) && IsCalm(run) && IsCalm(more)
    ensures IsRun(s, run + more) && After(s, run + more) == After(After(s, run), more) && IsCalm(run + more)
    decreases |run|
  {
    hide Enabled, Next;
    if run == [] {
      assert run + more == more;
    } else {
      assert (run + more)[0] == run[0] && (run + more)[1..] == run[1..] + more;
      assert forall i | 0 <= i < |run[1..]| :: run[1..][i] == run[i + 1];
      RunsJoin(Next(s, run[0]), run[1..], more);
    }
  }

  /** The job's next step. */
  function StepOf(stage: Stage, job: nat): Action {
    match stage
    case Waiting => Start(job)
    case Starting => ClearMark(job)
    case Unlocked(_, _) => Acquire(job)
    case Locked => Read(job)
    case Holding(_) => Apply(job)
    case Pushed => Release(job)
    case Raised(_) => Release(job)
    case Failing(_) => Record(job)
  }

  function StepsLeft(stage: Stage): nat {
    match stage
    case Waiting => 6
    case Starting => 5
    case Unlocked(_, _) => 4
    case Locked => 3
    case Holding(_) => 2
    case Pushed => 1
    case Raised(_) => 2
    case Failing(_) => 1
  }

  predicate WillRead(stage: Stage) {
    stage.Waiting? || stage.Starting? || stage.Unlocked? || stage.Locked?
  }

  /** The job alone runs to its end. */
  predicate IsFinished(s: State, job: nat, t: State)
    requires job in s.jobs
  {
    && t.jobs == s.jobs - {job} && t.lock == None
    && t.hooks == s.hooks && t.marking == s.marking && t.committed == s.committed
    && t.mark == (s.mark && !s.jobs[job].Waiting? && !s.jobs[job].Starting?)
    && (WillRead(s.jobs[job]) ==> t.applied == s.committed && t.failure == None)
    && (s.jobs[job].Holding? ==> t.applied == s.jobs[job].snapshot && t.failure == None)
    && (s.jobs[job].Pushed? ==> t.applied == s.applied && t.failure == s.failure)
  }

  lemma {:induction false} FinishJob(s: State, job: nat) returns (run: Run)
    requires job in s.jobs && LockOk(s) && (s.lock == None || s.lock == Some(job))
    ensures IsRun(s, run) && IsCalm(run) && IsFinished(s, job, After(s, run))
    decreases StepsLeft(s.jobs[job])
  {
    hide LockOk, IsRun, After;
    var action := StepOf(s.jobs[job], job);
    StepIsEnabled(s, job);
    NextKeepsLock(s, action);
    var t := Next(s, action);
    if job in t.jobs {
      var rest := FinishJob(t, job);
      run := CalmFirst(s, action, rest);
      StepThenFinished(s, job, After(t, rest));
    } else {
      NoSteps(t);
      NothingIsCalm();
      run := CalmFirst(s, action, []);
      assert t.jobs == s.jobs - {job};
    }
  }

  lemma StepIsEnabled(s: State, job: nat)
    requires job in s.jobs && LockOk(s) && (s.lock == None || s.lock == Some(job))
    ensures var action := StepOf(s.jobs[job], job);
            Enabled(s, action) && !IsKill(action) && KeepsCalm(action)
    ensures s.jobs[job].Failing? ==> s.lock == None
  {
  }

  lemma StepThenFinished(s: State, job: nat, u: State)
    requires job in s.jobs && LockOk(s) && (s.lock == None || s.lock == Some(job))
    requires Enabled(s, StepOf(s.jobs[job], job)) && job in Next(s, StepOf(s.jobs[job], job)).jobs
    requires IsFinished(Next(s, StepOf(s.jobs[job], job)), job, u)
    ensures IsFinished(s, job, u)
    ensures StepsLeft(Next(s, StepOf(s.jobs[job], job)).jobs[job]) < StepsLeft(s.jobs[job])
  {
    var t := Next(s, StepOf(s.jobs[job], job));
    assert t.jobs - {job} == s.jobs - {job};
  }

  /** All the jobs there are run to their ends, the lock's holder first. */
  lemma {:induction false} FinishAll(s: State) returns (run: Run)
    requires LockOk(s) && (s.lock.Some? ==> s.lock.value in s.jobs)
    ensures IsRun(s, run) && IsCalm(run)
    ensures var t := After(s, run);
            && t.jobs == map[] && t.lock == None && t.hooks == s.hooks && t.marking == s.marking
            && t.committed == s.committed && (t.mark ==> s.mark)
    decreases |s.jobs|
  {
    hide IsRun, After, Enabled, Next, IsCalm;
    if s.jobs == map[] {
      NoSteps(s);
      NothingIsCalm();
      run := [];
    } else {
      var job := if s.lock.Some? then s.lock.value else var j :| j in s.jobs; j;
      var first := FinishJob(s, job);
      var t := After(s, first);
      FinishedKeepsLock(s, job, t);
      var rest := FinishAll(t);
      RunsJoin(s, first, rest);
      run := first + rest;
    }
  }

  lemma NothingIsCalm()
    ensures IsCalm([])
  {
  }

  lemma FinishedKeepsLock(s: State, job: nat, t: State)
    requires job in s.jobs && LockOk(s) && (s.lock == None || s.lock == Some(job)) && IsFinished(s, job, t)
    ensures LockOk(t) && |t.jobs| < |s.jobs|
  {
    assert t.jobs.Keys == s.jobs.Keys - {job};
  }

  /** A hook's mark is queued, and its job runs: afterwards the cluster holds what is committed. */
  lemma QueueAndFinish(s: State) returns (run: Run)
    requires s.jobs == map[] && s.lock == None && s.marking > 0
    ensures IsRun(s, run) && IsCalm(run)
    ensures var t := After(s, run);
            && t == s.(marking := s.marking - 1, mark := false, applied := s.committed, failure := None,
                       acquired := t.acquired)
  {
    hide IsRun, After;
    var t := Next(s, Enqueue(0));
    var rest := FinishJob(t, 0);
    var u := After(t, rest);
    assert u.jobs == map[];
    run := CalmFirst(s, Enqueue(0), rest);
  }

  lemma {:induction false} HookAndFinish(s: State) returns (run: Run)
    requires s.jobs == map[] && s.lock == None && s.marking == 0 && s.hooks > 0 && !s.mark
    ensures IsRun(s, run) && IsCalm(run)
    ensures var t := After(s, run);
            t == s.(hooks := s.hooks - 1, applied := s.committed, failure := None, acquired := t.acquired)
  {
    hide IsRun, After;
    var t := Next(s, RunHook);
    var rest := QueueAndFinish(t);
    run := CalmFirst(s, RunHook, rest);
  }

  /** After any run in which who was killed left its changes to another, one more change is enough: there is
      a way on, without another change, a kill or a failure, after which nothing is under way, no failure
      shows and the cluster holds the committed configuration. */
  lemma CanCatchUp(s: State, run: Run) returns (more: Run)
    requires Initial(s) && s.failure.None? && IsRun(s, run) && KillsBacked(s, run)
    ensures Enabled(After(s, run), Save)
    ensures var t := Next(After(s, run), Save);
            && IsRun(t, more) && IsCalm(more)
            && var u := After(t, more);
               && u.jobs == map[] && u.hooks == 0 && u.marking == 0 && !u.mark && u.lock == None && u.failure == None
               && u.applied == u.committed == t.committed
  {
    hide Inv, IsRun, After, Next, Enabled;
    InitialIsInv(s);
    RunKeepsInv(s, run);
    var t := SavedState(After(s, run));
    more := CatchUp(t);
  }

  lemma SavedState(s: State) returns (t: State)
    requires Inv(s)
    ensures Enabled(s, Save) && t == Next(s, Save) && Inv(t) && t.hooks > 0
  {
    t := Next(s, Save);
    NextKeepsInv(s, Save);
  }

  /** What a hook has to bring is brought. */
  lemma CatchUp(s: State) returns (run: Run)
    requires Inv(s) && s.hooks > 0
    ensures IsRun(s, run) && IsCalm(run)
    ensures var u := After(s, run);
            && u.jobs == map[] && u.hooks == 0 && u.marking == 0 && !u.mark && u.lock == None && u.failure == None
            && u.applied == u.committed == s.committed
  {
    hide IsRun, After, Enabled, Next, IsCalm;
    var free := FreeLock(s);
    var a := After(s, free);
    var first := FinishAll(a);
    var b := After(a, first);
    CalmKeepsInv(a, first);
    QuietMark(b);
    var second := DrainMarks(b);
    var c := After(b, second);
    RunsJoin(a, first, second);
    RunsJoin(s, free, first + second);
    run := free + (first + second);
  }

  /** A lock whose holder is gone expires. */
  lemma FreeLock(s: State) returns (run: Run)
    requires Inv(s)
    ensures IsRun(s, run) && IsCalm(run)
    ensures var t := After(s, run);
            && Inv(t) && (t.lock.Some? ==> t.lock.value in t.jobs)
            && t == s.(lock := t.lock)
  {
    if s.lock.Some? && s.lock.value !in s.jobs {
      NextKeepsInv(s, ExpireLock);
      NoSteps(Next(s, ExpireLock));
      NothingIsCalm();
      run := CalmFirst(s, ExpireLock, []);
    } else {
      run := [];
    }
  }

  lemma {:induction false} CalmKeepsInv(s: State, run: Run)
    requires Inv(s) && IsRun(s, run) && IsCalm(run)
    ensures Inv(After(s, run))
    decreases |run|
  {
    hide Inv, Enabled, Next, Backed;
    if run != [] {
      assert KeepsCalm(run[0]);
      assert forall i | 0 <= i < |run[1..]| :: run[1..][i] == run[i + 1];
      NextKeepsInv(s, run[0]);
      CalmKeepsInv(Next(s, run[0]), run[1..]);
    }
  }

  lemma QuietMark(s: State)
    requires Inv(s) && s.jobs == map[]
    ensures s.mark ==> s.marking > 0
  {
  }

  /** Every mark and every hook leads to a job; the last one brings everything. */
  lemma {:induction false} DrainMarks(s: State) returns (run: Run)
    requires s.jobs == map[] && s.lock == None && (s.mark ==> s.marking > 0)
    requires s.hooks > 0 || s.marking > 0 || (s.applied == s.committed && s.failure == None)
    ensures IsRun(s, run) && IsCalm(run)
    ensures var u := After(s, run);
            && u.jobs == map[] && u.hooks == 0 && u.marking == 0 && !u.mark && u.lock == None && u.failure == None
            && u.applied == u.committed == s.committed
    decreases s.hooks, s.marking
  {
    hide IsRun, After, Enabled, Next, IsCalm;
    if s.marking > 0 {
      var first := QueueAndFinish(s);
      var rest := DrainMarks(After(s, first));
      RunsJoin(s, first, rest);
      run := first + rest;
    } else if s.hooks > 0 {
      var first := HookAndFinish(s);
      var rest := DrainMarks(After(s, first));
      RunsJoin(s, first, rest);
      run := first + rest;
    } else {
      NoSteps(s);
      NothingIsCalm();
      run := [];
    }
  }
}
