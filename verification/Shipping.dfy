/** Scan records from a node's spool to the warehouse table: the shipper that sends each file from its
    start until every batch is accepted, the staging directory, and the loader. Any of them can stop
    between two steps. */
module Shipping {
  import opened Staging

  const BATCH_SIZE: nat := 2000

  // --- batches of a file ---------------------------------------------------------------------

  function SliceCount(file: seq<Record>): nat {
    (|file| + BATCH_SIZE - 1) / BATCH_SIZE
  }

  function SliceEnd(file: seq<Record>, k: nat): nat {
    if (k + 1) * BATCH_SIZE < |file| then (k + 1) * BATCH_SIZE else |file|
  }

  function Slice(file: seq<Record>, k: nat): Batch
    requires k < SliceCount(file)
  {
    file[k * BATCH_SIZE..SliceEnd(file, k)]
  }

  lemma PositionsOf(file: seq<Record>, k: nat, p: nat)
    requires k < SliceCount(file) && k * BATCH_SIZE <= p < SliceEnd(file, k)
    ensures p / BATCH_SIZE == k
  {
  }

  lemma SliceOf(file: seq<Record>, p: nat)
    requires p < |file|
    ensures p / BATCH_SIZE < SliceCount(file)
    ensures (p / BATCH_SIZE) * BATCH_SIZE <= p < SliceEnd(file, p / BATCH_SIZE)
    ensures file[p] in Slice(file, p / BATCH_SIZE)
  {
    var k := p / BATCH_SIZE;
    assert Slice(file, k)[p - k * BATCH_SIZE] == file[p];
  }

  // --- backlog -------------------------------------------------------------------------------

  const MAX_BACKLOG_BYTES: nat := 100 * 1024 * 1024

  function Bytes(sizes: seq<nat>): nat {
    if sizes == [] then 0 else sizes[0] + Bytes(sizes[1..])
  }

  /** Drops the oldest files, and no more of them than the limit asks for. */
  method TrimBacklog(sizes: seq<nat>) returns (dropped: nat)
    ensures dropped <= |sizes| && Bytes(sizes[dropped..]) <= MAX_BACKLOG_BYTES
    ensures forall fewer: nat | fewer < dropped :: Bytes(sizes[fewer..]) > MAX_BACKLOG_BYTES
  {
    dropped := 0;
    var total := 0;
    for i := 0 to |sizes|
      invariant total + Bytes(sizes[i..]) == Bytes(sizes)
    {
      assert sizes[i..][1..] == sizes[i + 1..];
      total := total + sizes[i];
    }
    assert sizes[0..] == sizes;
    while dropped < |sizes| && total > MAX_BACKLOG_BYTES
      invariant dropped <= |sizes|
      invariant total == Bytes(sizes[dropped..])
      invariant forall fewer: nat | fewer < dropped :: Bytes(sizes[fewer..]) > MAX_BACKLOG_BYTES
    {
      assert sizes[dropped..][1..] == sizes[dropped + 1..];
      total := total - sizes[dropped];
      dropped := dropped + 1;
    }
  }

  // --- state ---------------------------------------------------------------------------------

  datatype Loader =
    | Idle
    | Chosen(files: seq<Batch>)
    | Deleting(files: seq<Batch>)

  /** `files` are all the files the shipper ever took, those before `first` unlinked; `sent` counts the
      batches of the oldest one that this run of the shipper has sent. */
  datatype State = State(files: seq<seq<Record>>, first: nat, sent: nat, dropped: set<nat>, accepted: set<Batch>,
                         staged: seq<Batch>, rejected: set<Batch>, table: seq<Row>, expired: set<Row>, loader: Loader)

  datatype Action =
    | Take(records: seq<Record>)
    | Drop
    | Send(stages: bool, answers: bool)
    | Unlink
    | StopShipper
    | Reject(batch: Batch)
    | Choose(chosen: seq<Batch>)
    | Commit
    | Delete
    | StopLoader
    | Prune(cutoff: int)

  /** No record occurs twice, in one file or in two. */
  predicate AllDistinct(files: seq<seq<Record>>) {
    && (forall k | 0 <= k < |files| :: NoDuplicates(files[k]))
    && forall k, m | 0 <= k < m < |files| :: Apart(files[k], files[m])
  }

  predicate Apart(a: seq<Record>, b: seq<Record>) {
    forall record | record in a :: record !in b
  }

  predicate Enabled(s: State, action: Action) {
    match action
    case Take(records) => AllDistinct(s.files + [records])
    case Drop => s.first < |s.files| && s.sent == 0
    case Send(stages, answers) =>
      s.first < |s.files| && s.sent < SliceCount(s.files[s.first]) && (answers ==> stages)
    case Unlink => s.first < |s.files| && s.sent == SliceCount(s.files[s.first])
    case StopShipper => true
    case Reject(batch) => s.loader.Idle? && batch in s.staged
    case Choose(chosen) => s.loader.Idle? && NoDuplicates(chosen) && forall file | file in chosen :: file in s.staged
    case Commit => s.loader.Chosen?
    case Delete => s.loader.Deleting? && s.loader.files != []
    case StopLoader => true
    case Prune(cutoff) => true
  }

  function KeptSince(table: seq<Row>, cutoff: int): seq<Row> {
    if table == [] then []
    else (if table[0].record.time < cutoff then [] else [table[0]]) + KeptSince(table[1..], cutoff)
  }

  function Before(table: seq<Row>, cutoff: int): set<Row> {
    set row | row in table && row.record.time < cutoff
  }

  /** A request with no row to store is accepted and stages nothing. */
  function Stage(s: State, batch: Batch): State {
    if RowsOf(batch) == [] then s else s.(staged := Removed(s.staged, batch) + [batch])
  }

  function Next(s: State, action: Action): State
    requires Enabled(s, action)
  {
    match action
    case Take(records) => s.(files := s.files + [records])
    case Drop => s.(first := s.first + 1, dropped := s.dropped + {s.first})
    case Send(stages, answers) =>
      var batch := Slice(s.files[s.first], s.sent);
      var t := if stages then Stage(s, batch) else s;
      if answers then t.(accepted := s.accepted + {batch}, sent := s.sent + 1) else t.(sent := 0)
    case Unlink => s.(first := s.first + 1, sent := 0)
    case StopShipper => s.(sent := 0)
    case Reject(batch) => s.(staged := Removed(s.staged, batch), rejected := s.rejected + {batch})
    case Choose(chosen) => s.(loader := Chosen(chosen))
    case Commit => s.(table := s.table + Incoming(s.table, s.loader.files), loader := Deleting(s.loader.files))
    case Delete => s.(staged := Removed(s.staged, s.loader.files[0]), loader := Deleting(s.loader.files[1..]))
    case StopLoader => s.(loader := Idle)
    case Prune(cutoff) => s.(table := KeptSince(s.table, cutoff), expired := s.expired + Before(s.table, cutoff))
  }

  type Run = seq<Action>

  predicate IsRun(s: State, run: Run)
    decreases |run|
  {
    run == [] || (Enabled(s, run[0]) && IsRun(Next(s, run[0]), run[1..]))
  }

  function After(s: State, run: Run): State
    requires IsRun(s, run)
    decreases |run|
  {
    if run == [] then s else After(Next(s, run[0]), run[1..])
  }

  predicate Initial(s: State) {
    s == State([], 0, 0, {}, {}, [], {}, [], {}, Idle)
  }

  // --- invariant -----------------------------------------------------------------------------

  predicate IsSliceOf(file: seq<Record>, batch: Batch) {
    exists k: nat | k < SliceCount(file) :: Slice(file, k) == batch
  }

  predicate IsSlice(files: seq<seq<Record>>, batch: Batch) {
    exists i | 0 <= i < |files| :: IsSliceOf(files[i], batch)
  }

  /** Every batch anywhere is one of some file's. */
  predicate KnownBatches(s: State) {
    && (forall batch | batch in s.staged :: IsSlice(s.files, batch))
    && (forall row | row in s.table :: IsSlice(s.files, row.batch))
    && (s.loader.Chosen? ==> forall batch | batch in s.loader.files :: IsSlice(s.files, batch))
  }

  predicate SentBefore(s: State, k: nat, j: nat) {
    (k < s.first && k !in s.dropped) || (k == s.first && j < s.sent)
  }

  predicate AreAccepted(s: State) {
    forall k: nat, j: nat | k < |s.files| && j < SliceCount(s.files[k]) && SentBefore(s, k, j) ::
      Slice(s.files[k], j) in s.accepted
  }

  predicate ShipperOk(s: State) {
    && s.first <= |s.files|
    && (s.first == |s.files| ==> s.sent == 0)
    && (s.first < |s.files| ==> s.sent <= SliceCount(s.files[s.first]))
    && (forall k | k in s.dropped :: k < s.first)
  }

  /** All rows of the batch were in the table at once, and left it only when they expired. */
  predicate IsLoaded(table: seq<Row>, expired: set<Row>, batch: Batch) {
    forall record | record in batch && record.parses :: Row(batch, record) in table || Row(batch, record) in expired
  }

  predicate Delivered(s: State, batch: Batch) {
    batch in s.staged || batch in s.rejected || IsLoaded(s.table, s.expired, batch)
  }

  predicate AcceptedAreDelivered(s: State) {
    forall batch | batch in s.accepted :: Delivered(s, batch)
  }

  predicate LoaderOk(s: State) {
    && (s.loader.Chosen? ==> NoDuplicates(s.loader.files))
    && (s.loader.Deleting? ==> forall batch | batch in s.loader.files :: IsLoaded(s.table, s.expired, batch))
  }

  predicate TableOk(s: State) {
    && NoDuplicates(s.table)
    && (forall row | row in s.table :: row.record in row.batch && row.record.parses)
    && forall row | row in s.table :: IsLoaded(s.table, s.expired, row.batch)
  }

  predicate Inv(s: State) {
    && AllDistinct(s.files)
    && ShipperOk(s)
    && KnownBatches(s)
    && AreAccepted(s)
    && AcceptedAreDelivered(s)
    && LoaderOk(s)
    && TableOk(s)
  }
}
