/** A scan record reaches the warehouse table exactly once, however often it is sent. */
module ShippingTheorems {
  import opened Staging
  import opened Shipping

  // --- the table -----------------------------------------------------------------------------

  lemma {:induction false} KeptHas(table: seq<Row>, cutoff: int, row: Row)
    ensures row in KeptSince(table, cutoff) <==> row in table && row.record.time >= cutoff
  {
    if table != [] {
      KeptHas(table[1..], cutoff, row);
      assert table == [table[0]] + table[1..];
    }
  }

  lemma {:induction false} KeptStaysOnce(table: seq<Row>, cutoff: int)
    requires NoDuplicates(table)
    ensures NoDuplicates(KeptSince(table, cutoff))
  {
    if table != [] {
      KeptStaysOnce(table[1..], cutoff);
      KeptHas(table[1..], cutoff, table[0]);
    }
  }

  lemma PruneKeepsLoaded(table: seq<Row>, expired: set<Row>, cutoff: int, batch: Batch)
    requires IsLoaded(table, expired, batch)
    ensures IsLoaded(KeptSince(table, cutoff), expired + Before(table, cutoff), batch)
  {
    forall record | record in batch && record.parses
      ensures Row(batch, record) in KeptSince(table, cutoff) || Row(batch, record) in expired + Before(table, cutoff)
    {
      KeptHas(table, cutoff, Row(batch, record));
    }
  }

  lemma CommitLoads(table: seq<Row>, expired: set<Row>, files: seq<Batch>, batch: Batch)
    requires batch in files
    requires forall row | row in table :: IsLoaded(table, expired, row.batch)
    ensures IsLoaded(table + Incoming(table, files), expired, batch)
  {
    if IsIn(table, batch) {
      var i :| 0 <= i < |table| && table[i].batch == batch;
      assert table[i] in table;
    } else {
      forall record | record in batch && record.parses ensures Row(batch, record) in table + Incoming(table, files) {
        IncomingHas(table, files, Row(batch, record));
      }
    }
  }

  lemma CommitKeepsLoaded(table: seq<Row>, expired: set<Row>, files: seq<Batch>, batch: Batch)
    requires IsLoaded(table, expired, batch)
    ensures IsLoaded(table + Incoming(table, files), expired, batch)
  {
  }

  lemma SlicesAreDistinct(files: seq<seq<Record>>, batch: Batch)
    requires AllDistinct(files) && IsSlice(files, batch)
    ensures NoDuplicates(batch)
  {
    var i :| 0 <= i < |files| && IsSliceOf(files[i], batch);
    var k: nat :| k < SliceCount(files[i]) && Slice(files[i], k) == batch;
    assert NoDuplicates(files[i]);
  }

  lemma CommitKeepsTable(s: State)
    requires Inv(s) && Enabled(s, Commit)
    ensures TableOk(Next(s, Commit)) && LoaderOk(Next(s, Commit))
  {
    hide AllDistinct, IsSlice, Incoming, AreAccepted, Delivered, IsLoaded, NoDuplicates, IsIn;
    var files, t := s.loader.files, Next(s, Commit);
    forall file | file in files ensures NoDuplicates(file) {
      SlicesAreDistinct(s.files, file);
    }
    LoadedOnce(s.table, files);
    forall row | row in t.table
      ensures row.record in row.batch && row.record.parses && IsLoaded(t.table, t.expired, row.batch)
    {
      if row in s.table {
        CommitKeepsLoaded(s.table, s.expired, files, row.batch);
      } else {
        IncomingHas(s.table, files, row);
        CommitLoads(s.table, s.expired, files, row.batch);
      }
    }
    forall batch | batch in files ensures IsLoaded(t.table, t.expired, batch) {
      CommitLoads(s.table, s.expired, files, batch);
    }
  }

  lemma NextKeepsTable(s: State, action: Action)
    requires Inv(s) && Enabled(s, action)
    ensures TableOk(Next(s, action)) && LoaderOk(Next(s, action))
  {
    hide AllDistinct, IsSlice, Incoming, AreAccepted, Delivered, IsLoaded, NoDuplicates, KeptSince, Before;
    match action
    case Commit => CommitKeepsTable(s);
    case Prune(cutoff) =>
      var t := Next(s, action);
      KeptStaysOnce(s.table, cutoff);
      forall row | row in t.table
        ensures row.record in row.batch && row.record.parses && IsLoaded(t.table, t.expired, row.batch)
      {
        KeptHas(s.table, cutoff, row);
        PruneKeepsLoaded(s.table, s.expired, cutoff, row.batch);
      }
      if s.loader.Deleting? {
        forall batch | batch in s.loader.files ensures IsLoaded(t.table, t.expired, batch) {
          PruneKeepsLoaded(s.table, s.expired, cutoff, batch);
        }
      }
    case _ =>
  }

  // --- batches -------------------------------------------------------------------------------

  lemma MoreFiles(files: seq<seq<Record>>, file: seq<Record>, batch: Batch)
    requires IsSlice(files, batch)
    ensures IsSlice(files + [file], batch)
  {
    var i :| 0 <= i < |files| && IsSliceOf(files[i], batch);
    assert IsSliceOf((files + [file])[i], batch);
  }

  lemma StageHas(s: State, batch: Batch, other: Batch)
    ensures other in Stage(s, batch).staged ==> other == batch || other in s.staged
    ensures other in s.staged ==> other in Stage(s, batch).staged
    ensures RowsOf(batch) != [] ==> batch in Stage(s, batch).staged
  {
    RemovedHas(s.staged, batch, other);
  }

  lemma NextKeepsKnown(s: State, action: Action)
    requires Inv(s) && Enabled(s, action)
    ensures KnownBatches(Next(s, action))
  {
    hide AllDistinct, IsSlice, IsSliceOf, Incoming, AreAccepted, Delivered, IsLoaded, NoDuplicates, KeptSince, Removed,
        RowsOf;
    var t := Next(s, action);
    forall batch | batch in t.staged ensures IsSlice(t.files, batch) {
      StagedIsKnown(s, action, batch);
    }
    forall row | row in t.table ensures IsSlice(t.files, row.batch) {
      match action
      case Take(records) => MoreFiles(s.files, records, row.batch);
      case Commit => IncomingHas(s.table, s.loader.files, row);
      case Prune(cutoff) => KeptHas(s.table, cutoff, row);
      case _ =>
    }
    if t.loader.Chosen? {
      forall batch | batch in t.loader.files ensures IsSlice(t.files, batch) {
        if action.Take? {
          MoreFiles(s.files, action.records, batch);
        }
      }
    }
  }

  lemma StagedIsKnown(s: State, action: Action, batch: Batch)
    requires Inv(s) && Enabled(s, action) && batch in Next(s, action).staged
    ensures IsSlice(Next(s, action).files, batch)
  {
    hide AllDistinct, IsSlice, IsSliceOf, Incoming, AreAccepted, Delivered, IsLoaded, NoDuplicates, KeptSince, Removed,
        RowsOf;
    match action
    case Take(records) => MoreFiles(s.files, records, batch);
    case Send(_, _) =>
      var sent := Slice(s.files[s.first], s.sent);
      StageHas(s, sent, batch);
      if batch !in s.staged {
        SliceIsSlice(s.files, s.first, s.sent);
      }
    case Reject(gone) => RemovedHas(s.staged, gone, batch);
    case Delete => RemovedHas(s.staged, s.loader.files[0], batch);
    case _ =>
  }

  lemma SliceIsSlice(files: seq<seq<Record>>, i: nat, k: nat)
    requires i < |files| && k < SliceCount(files[i])
    ensures IsSlice(files, Slice(files[i], k))
  {
    assert IsSliceOf(files[i], Slice(files[i], k));
  }

  lemma NoRowsIsLoaded(table: seq<Row>, expired: set<Row>, batch: Batch)
    requires RowsOf(batch) == []
    ensures IsLoaded(table, expired, batch)
  {
    forall record | record in batch ensures !record.parses {
      RowsFromHas(batch, batch, Row(batch, record));
    }
  }

  /** What was delivered stays delivered, and a sent batch is when its request is answered. */
  lemma NextDelivers(s: State, action: Action, batch: Batch)
    requires Inv(s) && Enabled(s, action) && batch in Next(s, action).accepted
    ensures Delivered(Next(s, action), batch)
  {
    hide AllDistinct, IsSlice, IsSliceOf, Incoming, AreAccepted, IsLoaded, NoDuplicates, KeptSince, Before, Removed,
        RowsOf, Slice, SliceCount;
    match action
    case Send(stages, answers) =>
      var sent := Slice(s.files[s.first], s.sent);
      StageHas(s, sent, batch);
      if batch !in s.accepted && RowsOf(batch) == [] {
        NoRowsIsLoaded(s.table, s.expired, batch);
      }
    case Reject(gone) => RemovedHas(s.staged, gone, batch);
    case Commit =>
      if IsLoaded(s.table, s.expired, batch) {
        CommitKeepsLoaded(s.table, s.expired, s.loader.files, batch);
      }
    case Delete => RemovedHas(s.staged, s.loader.files[0], batch);
    case Prune(cutoff) =>
      if IsLoaded(s.table, s.expired, batch) {
        PruneKeepsLoaded(s.table, s.expired, cutoff, batch);
      }
    case _ =>
  }

  lemma NextKeepsShipper(s: State, action: Action)
    requires Inv(s) && Enabled(s, action)
    ensures AllDistinct(Next(s, action).files) && ShipperOk(Next(s, action)) && AreAccepted(Next(s, action))
  {
    hide AllDistinct, KnownBatches, AcceptedAreDelivered, LoaderOk, TableOk, Incoming, Removed, KeptSince, Before,
        RowsOf, Slice, SliceCount;
  }

  lemma NextKeepsInv(s: State, action: Action)
    requires Inv(s) && Enabled(s, action)
    ensures Inv(Next(s, action))
  {
    hide Next, Enabled, AllDistinct, ShipperOk, KnownBatches, AreAccepted, LoaderOk, TableOk, Delivered;
    NextKeepsShipper(s, action);
    NextKeepsKnown(s, action);
    NextKeepsTable(s, action);
    forall batch | batch in Next(s, action).accepted ensures Delivered(Next(s, action), batch) {
      NextDelivers(s, action, batch);
    }
  }

  lemma {:induction false} RunKeepsInv(s: State, run: Run)
    requires Inv(s) && IsRun(s, run)
    ensures Inv(After(s, run))
    decreases |run|
  {
    hide Inv, Enabled, Next;
    if run != [] {
      NextKeepsInv(s, run[0]);
      RunKeepsInv(Next(s, run[0]), run[1..]);
    }
  }

  lemma InitialIsInv(s: State)
    requires Initial(s)
    ensures Inv(s)
  {
  }

  // --- exactly once --------------------------------------------------------------------------

  lemma PlaceInFile(file: seq<Record>, batch: Batch, record: Record) returns (p: nat)
    requires IsSliceOf(file, batch) && record in batch
    ensures p < |file| && file[p] == record
    ensures p / BATCH_SIZE < SliceCount(file) && Slice(file, p / BATCH_SIZE) == batch
  {
    var k: nat :| k < SliceCount(file) && Slice(file, k) == batch;
    var q :| 0 <= q < |batch| && batch[q] == record;
    p := k * BATCH_SIZE + q;
    PositionsOf(file, k, p);
  }

  lemma SameFile(files: seq<seq<Record>>, i: nat, m: nat, record: Record)
    requires AllDistinct(files) && i < |files| && m < |files| && record in files[i] && record in files[m]
    ensures i == m
  {
    assert i < m ==> Apart(files[i], files[m]);
    assert m < i ==> Apart(files[m], files[i]);
  }

  /** A record belongs to one batch: a file sent again from its start is cut at the same places. */
  lemma OneBatchPerRecord(files: seq<seq<Record>>, a: Batch, b: Batch, record: Record)
    requires AllDistinct(files) && IsSlice(files, a) && IsSlice(files, b) && record in a && record in b
    ensures a == b
  {
    hide IsSliceOf, Slice, SliceCount;
    var i :| 0 <= i < |files| && IsSliceOf(files[i], a);
    var m :| 0 <= m < |files| && IsSliceOf(files[m], b);
    var p := PlaceInFile(files[i], a, record);
    var q := PlaceInFile(files[m], b, record);
    SameFile(files, i, m, record);
    assert NoDuplicates(files[i]);
    assert p == q;
  }

  /** No record is in the table twice, over any interleaving of taking, sending, resending, loading,
      crashing and pruning. */
  lemma AtMostOnce(s: State, run: Run)
    requires Initial(s) && IsRun(s, run)
    ensures var table := After(s, run).table;
            forall i, j | 0 <= i < j < |table| :: table[i].record != table[j].record
  {
    InitialIsInv(s);
    RunKeepsInv(s, run);
    var t := After(s, run);
    forall i, j | 0 <= i < j < |t.table| ensures t.table[i].record != t.table[j].record {
      if t.table[i].record == t.table[j].record {
        assert t.table[i] in t.table && t.table[j] in t.table;
        OneBatchPerRecord(t.files, t.table[i].batch, t.table[j].batch, t.table[i].record);
        assert false;
      }
    }
  }

  /** Where a record of a finished file is: still staged, rejected, in the table, or expired. */
  ghost predicate IsKept(s: State, record: Record) {
    exists batch | IsSlice(s.files, batch) && record in batch ::
      || batch in s.staged || batch in s.rejected
      || Row(batch, record) in s.table || Row(batch, record) in s.expired
  }

  /** No record of a file the shipper unlinked is lost, unless the backlog limit dropped the file. */
  lemma NothingIsLost(s: State, run: Run, k: nat, record: Record)
    requires Initial(s) && IsRun(s, run)
    requires var t := After(s, run);
             k < t.first <= |t.files| && k !in t.dropped && record in t.files[k] && record.parses
    ensures IsKept(After(s, run), record)
  {
    hide AllDistinct, IsSlice, Next, Enabled, NoDuplicates;
    InitialIsInv(s);
    RunKeepsInv(s, run);
    var t := After(s, run);
    var p :| 0 <= p < |t.files[k]| && t.files[k][p] == record;
    SliceOf(t.files[k], p);
    var batch := Slice(t.files[k], p / BATCH_SIZE);
    SliceIsSlice(t.files, k, p / BATCH_SIZE);
    assert batch in t.accepted;
    assert Delivered(t, batch);
  }

  /** Once all is sent and loaded, and nothing was dropped, rejected or pruned, the table holds
      exactly the records of the spool files that parse, each once. */
  lemma ExactlyOnce(s: State, run: Run, record: Record)
    requires Initial(s) && IsRun(s, run)
    requires var t := After(s, run);
             t.first == |t.files| && t.dropped == {} && t.staged == [] && t.rejected == {} && t.expired == {}
    ensures var t := After(s, run);
            && (forall i, j | 0 <= i < j < |t.table| :: t.table[i].record != t.table[j].record)
            && ((exists row | row in t.table :: row.record == record) <==>
                record.parses && exists k | 0 <= k < |t.files| :: record in t.files[k])
  {
    hide AllDistinct, Next, Enabled, NoDuplicates;
    InitialIsInv(s);
    RunKeepsInv(s, run);
    AtMostOnce(s, run);
    var t := After(s, run);
    if row :| row in t.table && row.record == record {
      assert IsSlice(t.files, row.batch);
      var i :| 0 <= i < |t.files| && IsSliceOf(t.files[i], row.batch);
      assert record in t.files[i];
    }
    if k :| 0 <= k < |t.files| && record in t.files[k] && record.parses {
      NothingIsLost(s, run, k, record);
      var batch :| IsSlice(t.files, batch) && record in batch &&
        (batch in t.staged || batch in t.rejected || Row(batch, record) in t.table || Row(batch, record) in t.expired);
      assert Row(batch, record) in t.table;
    }
  }

  // --- what is staged --------------------------------------------------------------------------

  predicate StagedHaveRows(staged: seq<Batch>) {
    forall batch | batch in staged :: exists record | record in batch :: record.parses
  }

  lemma StageKeepsRows(s: State, batch: Batch)
    requires StagedHaveRows(s.staged)
    ensures StagedHaveRows(Stage(s, batch).staged)
  {
    hide RowsOf, Removed;
    forall other | other in Stage(s, batch).staged ensures exists record | record in other :: record.parses {
      StageHas(s, batch, other);
      if other !in s.staged {
        FirstRow(batch);
      }
    }
  }

  lemma FirstRow(batch: Batch)
    requires RowsOf(batch) != []
    ensures exists record | record in batch :: record.parses
  {
    var row := RowsOf(batch)[0];
    RowsFromHas(batch, batch, row);
  }

  /** Over any run every staged file has a record that parses: a request without one stages nothing. */
  lemma {:induction false} NothingEmptyIsStaged(s: State, run: Run)
    requires IsRun(s, run) && StagedHaveRows(s.staged)
    ensures StagedHaveRows(After(s, run).staged)
    decreases |run|
  {
    hide Stage, Slice, SliceCount, Removed, Incoming, KeptSince;
    if run != [] {
      StepKeepsRows(s, run[0]);
      NothingEmptyIsStaged(Next(s, run[0]), run[1..]);
    }
  }

  lemma StepKeepsRows(s: State, action: Action)
    requires Enabled(s, action) && StagedHaveRows(s.staged)
    ensures StagedHaveRows(Next(s, action).staged)
  {
    hide Stage, Slice, SliceCount, Removed, Incoming, KeptSince;
    match action
    case Send(stages, answers) =>
      if stages {
        StageKeepsRows(s, Slice(s.files[s.first], s.sent));
      }
    case Reject(batch) =>
      forall other ensures other in Removed(s.staged, batch) <==> other in s.staged && other != batch {
        RemovedHas(s.staged, batch, other);
      }
    case Delete =>
      forall other ensures other in Removed(s.staged, s.loader.files[0]) <==>
                           other in s.staged && other != s.loader.files[0]
      {
        RemovedHas(s.staged, s.loader.files[0], other);
      }
    case _ =>
  }

  // --- a file's batches ------------------------------------------------------------------------

  function Together(file: seq<Record>, k: nat): seq<Record>
    requires k <= SliceCount(file)
  {
    if k == 0 then [] else Together(file, k - 1) + Slice(file, k - 1)
  }

  /** A file is cut into batches of two thousand records, the last one taking what is left, and the batches
      in their order are the file. */
  lemma SlicesAreTheFile(file: seq<Record>)
    ensures Together(file, SliceCount(file)) == file
    ensures forall k: nat | k + 1 < SliceCount(file) :: |Slice(file, k)| == 2000
    ensures file != [] ==> SliceCount(file) > 0 && 0 < |Slice(file, SliceCount(file) - 1)| <= 2000
    ensures file == [] ==> SliceCount(file) == 0
  {
    TogetherIs(file, SliceCount(file));
    assert file[..|file|] == file;
  }

  lemma {:induction false} TogetherIs(file: seq<Record>, k: nat)
    requires k <= SliceCount(file)
    ensures Together(file, k) == file[..if k * 2000 < |file| then k * 2000 else |file|]
  {
    if k > 0 {
      TogetherIs(file, k - 1);
      assert (k - 1) * 2000 < |file|;
    }
  }

  // --- everything can arrive ---------------------------------------------------------------------

  lemma OneStep(s: State, action: Action, run: Run) returns (longer: Run)
    requires Enabled(s, action) && IsRun(Next(s, action), run)
    ensures longer == [action] + run && IsRun(s, longer) && After(s, longer) == After(Next(s, action), run)
  {
    longer := [action] + run;
  }

  /** Nothing is taken, dropped, rejected or pruned, and the shipper does not stop. */
  predicate IsSmooth(run: Run) {
    forall i | 0 <= i < |run| ::
      !run[i].Take? && !run[i].Drop? && !run[i].Reject? && !run[i].Prune? && !run[i].StopShipper?
  }

  lemma SmoothMore(action: Action, run: Run)
    requires IsSmooth(run) && IsSmooth([action])
    ensures IsSmooth([action] + run)
  {
    var longer := [action] + run;
    forall i | 0 <= i < |longer|
      ensures !longer[i].Take? && !longer[i].Drop? && !longer[i].Reject? && !longer[i].Prune? && !longer[i].StopShipper?
    {
      if i > 0 {
        assert longer[i] == run[i - 1];
      } else {
        assert longer[0] == [action][0];
      }
    }
  }

  /** The shipper sends what is left, batch by batch and file by file. */
  lemma {:induction false} SendAll(s: State) returns (run: Run)
    requires ShipperOk(s)
    ensures IsRun(s, run) && IsSmooth(run)
    ensures var t := After(s, run);
            && t.first == |t.files| && t.files == s.files && t.dropped == s.dropped && t.rejected == s.rejected
            && t.expired == s.expired && t.loader == s.loader
    decreases |s.files| - s.first, if s.first < |s.files| then SliceCount(s.files[s.first]) - s.sent else 0
  {
    hide Slice, SliceCount, RowsOf, Removed;
    if s.first == |s.files| {
      run := [];
    } else {
      var action := if s.sent < SliceCount(s.files[s.first]) then Send(true, true) else Unlink;
      var rest := SendAll(Next(s, action));
      SmoothMore(action, rest);
      run := OneStep(s, action, rest);
    }
  }

  /** The loader deletes the files it has loaded. */
  lemma {:induction false} DeleteAll(s: State) returns (run: Run)
    requires s.loader.Deleting?
    ensures IsRun(s, run) && IsSmooth(run)
    ensures var t := After(s, run);
            && t == s.(staged := t.staged, loader := Deleting([]))
            && t.staged == RemovedAll(s.staged, s.loader.files)
    decreases |s.loader.files|
  {
    hide Removed, SliceCount, Slice;
    if s.loader.files == [] {
      run := [];
    } else {
      var rest := DeleteAll(Next(s, Delete));
      SmoothMore(Delete, rest);
      run := OneStep(s, Delete, rest);
    }
  }

  lemma {:induction false} RemovedIsShorter(staged: seq<Batch>, batch: Batch)
    ensures |Removed(staged, batch)| <= |staged|
    ensures batch in staged ==> |Removed(staged, batch)| < |staged|
  {
    if staged != [] {
      RemovedIsShorter(staged[1..], batch);
    }
  }

  /** The run of the loader under way ends: what it has chosen is loaded, what it has loaded deleted. */
  lemma FinishLoading(s: State) returns (run: Run)
    ensures IsRun(s, run) && IsSmooth(run)
    ensures var t := After(s, run);
            && t == s.(staged := t.staged, table := t.table, loader := Idle)
            && t.staged == (if s.loader.Idle? then s.staged else RemovedAll(s.staged, s.loader.files))
  {
    match s.loader
    case Idle => run := [];
    case Chosen(files) =>
      var rest := FinishDeleting(Next(s, Commit));
      SmoothMore(Commit, rest);
      run := OneStep(s, Commit, rest);
    case Deleting(files) => run := FinishDeleting(s);
  }

  lemma FinishDeleting(s: State) returns (run: Run)
    requires s.loader.Deleting?
    ensures IsRun(s, run) && IsSmooth(run)
    ensures After(s, run) == s.(staged := RemovedAll(s.staged, s.loader.files), loader := Idle)
  {
    run := DeleteAll(s);
    StopAfter(s, run);
    run := run + [StopLoader];
  }

  lemma {:induction false} StopAfter(s: State, run: Run)
    requires IsRun(s, run) && IsSmooth(run)
    ensures IsRun(s, run + [StopLoader]) && IsSmooth(run + [StopLoader])
    ensures After(s, run + [StopLoader]) == After(s, run).(loader := Idle)
    decreases |run|
  {
    hide Enabled, Next;
    if run == [] {
      StopsAnywhere(s);
      assert [] + [StopLoader] == [StopLoader] && [StopLoader][1..] == [];
    } else {
      assert (run + [StopLoader])[1..] == run[1..] + [StopLoader];
      assert forall i | 0 <= i < |run[1..]| :: run[1..][i] == run[i + 1];
      StopAfter(Next(s, run[0]), run[1..]);
      assert run + [StopLoader] == [run[0]] + (run[1..] + [StopLoader]);
      assert [run[0]][0] == run[0];
      SmoothMore(run[0], run[1..] + [StopLoader]);
    }
  }

  lemma StopsAnywhere(s: State)
    ensures Enabled(s, StopLoader) && Next(s, StopLoader) == s.(loader := Idle)
  {
  }

  /** The loader takes the staged files one by one. */
  lemma {:induction false} LoadAll(s: State) returns (run: Run)
    requires s.loader.Idle?
    ensures IsRun(s, run) && IsSmooth(run)
    ensures After(s, run) == s.(staged := [], table := After(s, run).table)
    decreases |s.staged|
  {
    hide Removed, Incoming;
    if s.staged == [] {
      run := [];
    } else {
      var file := s.staged[0];
      var chosen := Next(s, Choose([file]));
      var ends := FinishLoading(chosen);
      var t := After(chosen, ends);
      assert [file][1..] == [] && RemovedAll(s.staged, [file]) == RemovedAll(Removed(s.staged, file), []);
      RemovedIsShorter(s.staged, file);
      var rest := LoadAll(t);
      RunJoins(chosen, ends, rest);
      SmoothJoins(ends, rest);
      SmoothMore(Choose([file]), ends + rest);
      run := OneStep(s, Choose([file]), ends + rest);
    }
  }

  lemma {:induction false} RunJoins(s: State, run: Run, more: Run)
    requires IsRun(s, run) && IsRun(After(s, run), more)
    ensures IsRun(s, run + more) && After(s, run + more) == After(After(s, run), more)
    decreases |run|
  {
    hide Enabled, Next;
    if run == [] {
      assert run + more == more;
    } else {
      assert (run + more)[0] == run[0] && (run + more)[1..] == run[1..] + more;
      RunJoins(Next(s, run[0]), run[1..], more);
    }
  }

  lemma SmoothJoins(a: Run, b: Run)
    requires IsSmooth(a) && IsSmooth(b)
    ensures IsSmooth(a + b)
  {
  }

  /** Whatever happened so far, the rest can still arrive: there is a way on, without anything dropped,
      rejected or pruned, after which every parsing record of every file that was not dropped is in the
      table, unless its batch was rejected or its row expired before. */
  lemma EverythingCanArrive(s: State, run: Run) returns (more: Run)
    requires Initial(s) && IsRun(s, run)
    ensures IsRun(After(s, run), more) && IsSmooth(more)
    ensures var t, u := After(s, run), After(After(s, run), more);
            && u.files == t.files && u.dropped == t.dropped && u.rejected == t.rejected && u.expired == t.expired
            && u.first == |u.files| && u.staged == []
            && forall k, record | 0 <= k < |u.files| && k !in u.dropped && record in u.files[k] && record.parses ::
                 exists batch :: record in batch &&
                   (Row(batch, record) in u.table || batch in u.rejected || Row(batch, record) in u.expired)
  {
    hide Next, Enabled, Inv, ShipperOk;
    var t := After(s, run);
    InitialIsInv(s);
    RunKeepsInv(s, run);
    InvHasShipper(t);
    var first := FinishLoading(t);
    var a := After(t, first);
    SameShipper(t, a);
    var second := SendAll(a);
    var b := After(a, second);
    var third := LoadAll(b);
    RunJoins(a, second, third);
    SmoothJoins(second, third);
    RunJoins(t, first, second + third);
    SmoothJoins(first, second + third);
    more := first + (second + third);
    RunJoins(s, run, more);
    var u := After(t, more);
    forall k, record | 0 <= k < |u.files| && k !in u.dropped && record in u.files[k] && record.parses
      ensures exists batch :: record in batch &&
                (Row(batch, record) in u.table || batch in u.rejected || Row(batch, record) in u.expired)
    {
      NothingIsLost(s, run + more, k, record);
      var batch :| IsSlice(u.files, batch) && record in batch &&
        (batch in u.staged || batch in u.rejected || Row(batch, record) in u.table || Row(batch, record) in u.expired);
    }
  }

  lemma InvHasShipper(s: State)
    requires Inv(s)
    ensures ShipperOk(s)
  {
  }

  lemma SameShipper(s: State, t: State)
    requires ShipperOk(s) && t.files == s.files && t.first == s.first && t.sent == s.sent && t.dropped == s.dropped
    ensures ShipperOk(t)
  {
  }
}
