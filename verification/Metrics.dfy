/** The change of each metric point since the previous point of its series: as the loader computes it
    chunk by chunk, and as one backfill computes it over the whole table. */
module Metrics {
  import opened Wrappers

  // --- rows ----------------------------------------------------------------------------------

  datatype Series = Series(host: string, name: string, labels: Option<string>)

  datatype Kind = Gauge | CounterKind | Histogram

  /** Times are microseconds; a count is a whole number. */
  datatype Row = Row(series: Series, timestamp: int, kind: Kind, value: real, count: Option<real>, sum: Option<real>)

  datatype Delta = Delta(increase: Option<real>, samplesAdded: Option<real>)

  const DAY: int := 86_400_000_000

  // --- the change expression -----------------------------------------------------------------

  /** SQL comparison: NULL when either side is. */
  function Less(a: Option<real>, b: Option<real>): Option<bool> {
    if a.Some? && b.Some? then Some(a.value < b.value) else None
  }

  function Or(a: Option<bool>, b: Option<bool>): Option<bool> {
    if a == Some(true) || b == Some(true) then Some(true) else if a.None? || b.None? then None else Some(false)
  }

  function Minus(a: Option<real>, b: Option<real>): Option<real> {
    if a.Some? && b.Some? then Some(a.value - b.value) else None
  }

  /** `get_change`; a point has a value, so `previous_value` is NULL exactly without a previous point. */
  function Change(total: Option<real>, previous: Option<real>, reset: Option<bool>, noPoint: bool,
      noPush: bool): Option<real> {
    if noPoint && noPush then None
    else if noPoint || reset == Some(true) then total
    else Minus(total, previous)
  }

  function ValueOf(row: Option<Row>): Option<real> { if row.Some? then Some(row.value.value) else None }

  function CountOf(row: Option<Row>): Option<real> { if row.Some? then row.value.count else None }

  function SumOf(row: Option<Row>): Option<real> { if row.Some? then row.value.sum else None }

  function HistogramReset(row: Row, previous: Option<Row>): Option<bool> {
    Or(Less(row.count, CountOf(previous)), Less(row.sum, SumOf(previous)))
  }

  /** `METRIC_DELTA_COLUMNS` of a row beside its previous point. */
  function DeltaOf(row: Row, previous: Option<Row>, noPush: bool): Delta {
    match row.kind
    case Gauge => Delta(None, None)
    case CounterKind =>
      Delta(Change(Some(row.value), ValueOf(previous), Less(Some(row.value), ValueOf(previous)), previous.None?,
          noPush), None)
    case Histogram =>
      var reset := HistogramReset(row, previous);
      Delta(Change(row.sum, SumOf(previous), reset, previous.None?, noPush),
            Change(row.count, CountOf(previous), reset, previous.None?, noPush))
  }

  // --- windows -------------------------------------------------------------------------------

  /** The points of a row's series before it. */
  function Earlier(rows: set<Row>, row: Row): set<Row> {
    set p | p in rows && p.series == row.series && p.timestamp < row.timestamp
  }

  predicate IsLatest(rows: set<Row>, row: Row) {
    row in rows && forall p | p in rows :: p.timestamp <= row.timestamp
  }

  /** `lag` over the series' window. */
  ghost function Latest(rows: set<Row>): Option<Row> {
    if exists p :: IsLatest(rows, p) then
      var p :| IsLatest(rows, p);
      Some(p)
    else None
  }

  predicate EarlierPush(rows: set<Row>, row: Row) {
    exists p | p in rows :: p.series.host == row.series.host && p.timestamp < row.timestamp
  }

  predicate Distinct(rows: set<Row>) {
    forall p, q | p in rows && q in rows && p.series == q.series && p.timestamp == q.timestamp :: p == q
  }

  lemma {:induction false} NonEmptyHasLatest(rows: set<Row>)
    requires rows != {}
    ensures exists p :: IsLatest(rows, p)
    decreases |rows|
  {
    var some :| some in rows;
    if rows == {some} {
      assert IsLatest(rows, some);
    } else {
      NonEmptyHasLatest(rows - {some});
      var best :| IsLatest(rows - {some}, best);
      assert IsLatest(rows, if some.timestamp > best.timestamp then some else best);
    }
  }

  lemma LatestOfEarlier(rows: set<Row>, row: Row)
    requires Distinct(rows)
    ensures Latest(Earlier(rows, row)).None? <==> Earlier(rows, row) == {}
    ensures forall p | IsLatest(Earlier(rows, row), p) :: Latest(Earlier(rows, row)) == Some(p)
  {
    var earlier := Earlier(rows, row);
    if earlier != {} {
      NonEmptyHasLatest(earlier);
    }
    if Latest(earlier).Some? {
      assert IsLatest(earlier, Latest(earlier).value);
    }
  }

  // --- the backfill --------------------------------------------------------------------------

  type Table = map<Row, Delta>

  ghost function BackfilledDelta(rows: set<Row>, row: Row): Delta {
    DeltaOf(row, Latest(Earlier(rows, row)), !EarlierPush(rows, row))
  }

  /** `fill_deltas`: every row against the whole table. */
  ghost function Backfill(rows: set<Row>): Table {
    map row | row in rows :: BackfilledDelta(rows, row)
  }

  // --- one chunk -----------------------------------------------------------------------------

  /** At or after the chunk's first time less a day. */
  predicate InWindow(incoming: set<Row>, timestamp: int) {
    exists r | r in incoming :: r.timestamp - DAY <= timestamp
  }

  predicate BeforeLast(incoming: set<Row>, stored: Row) {
    exists r | r in incoming :: r.series == stored.series && stored.timestamp < r.timestamp
  }

  predicate AfterFirst(incoming: set<Row>, stored: Row) {
    exists r | r in incoming :: r.series == stored.series && r.timestamp < stored.timestamp
  }

  predicate Eligible(incoming: set<Row>, stored: Row) {
    BeforeLast(incoming, stored) && InWindow(incoming, stored.timestamp)
  }

  /** The stored rows read beside the chunk: the newest before its series' first incoming row, and
      any between its incoming rows. */
  function Selected(stored: set<Row>, incoming: set<Row>): set<Row> {
    set s | s in stored && Eligible(incoming, s)
            && (AfterFirst(incoming, s)
                || forall q | q in stored && q.series == s.series && Eligible(incoming, q)
                    && !AfterFirst(incoming, q) ::
                     q.timestamp <= s.timestamp)
  }

  /** The host's newest stored push before its first incoming one, within the window. */
  predicate StoredPush(stored: set<Row>, incoming: set<Row>, host: string) {
    exists s | s in stored ::
      && s.series.host == host
      && InWindow(incoming, s.timestamp)
      && forall r | r in incoming && r.series.host == host :: s.timestamp < r.timestamp
  }

  ghost function ChunkPrevious(stored: set<Row>, incoming: set<Row>, row: Row): Option<Row> {
    Latest(Earlier(incoming + Selected(stored, incoming), row))
  }

  predicate ChunkPush(stored: set<Row>, incoming: set<Row>, row: Row) {
    EarlierPush(incoming, row) || StoredPush(stored, incoming, row.series.host)
  }

  /** `get_metrics_insert`: only the incoming rows are inserted, each with its change. */
  ghost function LoadChunk(table: Table, incoming: set<Row>): Table {
    table + map row | row in incoming ::
      DeltaOf(row, ChunkPrevious(table.Keys, incoming, row), !ChunkPush(table.Keys, incoming, row))
  }

  // --- chunks in time order --------------------------------------------------------------------

  /** Every stored row of a host is older than every incoming one. */
  predicate InOrder(stored: set<Row>, incoming: set<Row>) {
    forall s, r | s in stored && r in incoming && s.series.host == r.series.host :: s.timestamp < r.timestamp
  }

  /** What the chunk finds is the previous point of the whole table, provided that came with the chunk
      or lies in its window; else it finds none. */
  lemma ChunkPreviousIs(stored: set<Row>, incoming: set<Row>, row: Row)
    requires Distinct(stored + incoming) && InOrder(stored, incoming) && row in incoming
    ensures var previous := Latest(Earlier(stored + incoming, row));
            ChunkPrevious(stored, incoming, row) ==
            if previous.Some?
               && (previous.value in incoming
                   || exists r | r in incoming :: r.timestamp - 24 * 60 * 60 * 1_000_000 <= previous.value.timestamp)
            then previous else None
  {
    var all, points := stored + incoming, incoming + Selected(stored, incoming);
    assert points <= all;
    LatestOfEarlier(all, row);
    LatestOfEarlier(points, row);
    var previous := Latest(Earlier(all, row));
    if previous.Some? {
      var p := previous.value;
      assert IsLatest(Earlier(all, row), p);
      if p in incoming {
        assert IsLatest(Earlier(points, row), p);
      } else if InWindow(incoming, p.timestamp) {
        assert p in Selected(stored, incoming);
        assert IsLatest(Earlier(points, row), p);
      } else {
        forall q | q in Earlier(points, row) ensures false {
          assert q in Earlier(all, row);
          OlderIsOutside(incoming, q.timestamp, p.timestamp);
        }
        assert Earlier(points, row) == {};
      }
    } else {
      assert Earlier(points, row) <= Earlier(all, row);
    }
  }

  lemma OlderIsOutside(incoming: set<Row>, older: int, newer: int)
    requires older <= newer && !InWindow(incoming, newer)
    ensures !InWindow(incoming, older)
  {
  }

  /** No series and no host is silent for more than a day before a row. */
  predicate GapsUnderADay(rows: set<Row>, row: Row) {
    && (Earlier(rows, row) != {} ==>
          exists p :: p in Earlier(rows, row) && row.timestamp - 24 * 60 * 60 * 1_000_000 <= p.timestamp)
    && (EarlierPush(rows, row) ==>
          exists p :: p in rows && p.series.host == row.series.host
              && row.timestamp - 24 * 60 * 60 * 1_000_000 <= p.timestamp < row.timestamp)
  }

  predicate ChunkOk(stored: set<Row>, incoming: set<Row>) {
    && Distinct(stored + incoming)
    && InOrder(stored, incoming)
    && forall row | row in incoming :: GapsUnderADay(stored + incoming, row)
  }

  lemma ChunkPushIs(stored: set<Row>, incoming: set<Row>, row: Row)
    requires ChunkOk(stored, incoming) && row in incoming
    ensures ChunkPush(stored, incoming, row) <==> EarlierPush(stored + incoming, row)
  {
    var all := stored + incoming;
    if EarlierPush(all, row) && !EarlierPush(incoming, row) {
      var p :| p in all && p.series.host == row.series.host && row.timestamp - DAY <= p.timestamp < row.timestamp;
      assert p in stored;
      assert forall r | r in incoming && r.series.host == row.series.host :: p.timestamp < r.timestamp;
    }
    if StoredPush(stored, incoming, row.series.host) {
      var s :| s in stored && s.series.host == row.series.host
               && forall r | r in incoming && r.series.host == row.series.host :: s.timestamp < r.timestamp;
      assert s in all;
    }
    if EarlierPush(incoming, row) {
      var p :| p in incoming && p.series.host == row.series.host && p.timestamp < row.timestamp;
      assert p in all;
    }
  }

  lemma ChunkRowIsBackfilled(stored: set<Row>, incoming: set<Row>, row: Row)
    requires ChunkOk(stored, incoming) && row in incoming
    ensures DeltaOf(row, ChunkPrevious(stored, incoming, row), !ChunkPush(stored, incoming, row)) ==
            BackfilledDelta(stored + incoming, row)
  {
    hide DeltaOf, ChunkPush, EarlierPush, Distinct;
    var all := stored + incoming;
    ChunkPreviousIs(stored, incoming, row);
    ChunkPushIs(stored, incoming, row);
    LatestOfEarlier(all, row);
    var previous := Latest(Earlier(all, row));
    if previous.Some? && previous.value !in incoming {
      assert IsLatest(Earlier(all, row), previous.value) by {
        NonEmptyHasLatest(Earlier(all, row));
      }
      var p :| p in Earlier(all, row) && row.timestamp - DAY <= p.timestamp;
      assert p.timestamp <= previous.value.timestamp;
      assert InWindow(incoming, previous.value.timestamp);
    }
  }

  /** A later chunk changes nothing the backfill says of the rows already there. */
  lemma StoredRowKeepsDelta(stored: set<Row>, incoming: set<Row>, row: Row)
    requires InOrder(stored, incoming) && row in stored
    ensures BackfilledDelta(stored + incoming, row) == BackfilledDelta(stored, row)
  {
    assert Earlier(stored + incoming, row) == Earlier(stored, row);
    if p :| p in stored + incoming && p.series.host == row.series.host && p.timestamp < row.timestamp {
      assert p in stored;
    }
    assert stored <= stored + incoming;
  }

  lemma LoadKeepsBackfill(table: Table, incoming: set<Row>)
    requires table == Backfill(table.Keys) && ChunkOk(table.Keys, incoming)
    ensures LoadChunk(table, incoming) == Backfill(table.Keys + incoming)
  {
    hide DeltaOf, ChunkPush, ChunkPrevious, BackfilledDelta, ChunkOk;
    var stored := table.Keys;
    var loaded, filled := LoadChunk(table, incoming), Backfill(stored + incoming);
    assert loaded.Keys == filled.Keys;
    assert InOrder(stored, incoming) by {
      OkIsInOrder(stored, incoming);
    }
    forall row | row in stored + incoming ensures loaded[row] == filled[row] {
      if row in incoming {
        ChunkRowIsBackfilled(stored, incoming, row);
      } else {
        StoredRowKeepsDelta(stored, incoming, row);
      }
    }
  }

  lemma OkIsInOrder(stored: set<Row>, incoming: set<Row>)
    requires ChunkOk(stored, incoming)
    ensures InOrder(stored, incoming)
  {
  }

  ghost function LoadAll(table: Table, chunks: seq<set<Row>>): Table
    decreases |chunks|
  {
    if chunks == [] then table else LoadAll(LoadChunk(table, chunks[0]), chunks[1..])
  }

  function RowsOf(stored: set<Row>, chunks: seq<set<Row>>): set<Row>
    decreases |chunks|
  {
    if chunks == [] then stored else RowsOf(stored + chunks[0], chunks[1..])
  }

  predicate ChunksOk(stored: set<Row>, chunks: seq<set<Row>>)
    decreases |chunks|
  {
    chunks == [] || (ChunkOk(stored, chunks[0]) && ChunksOk(stored + chunks[0], chunks[1..]))
  }

  /** Loading any number of chunks in time order stores the deltas one backfill of the whole table
      would compute. */
  lemma {:induction false} ChunksAreOneBackfill(table: Table, chunks: seq<set<Row>>)
    requires table == Backfill(table.Keys) && ChunksOk(table.Keys, chunks)
    ensures LoadAll(table, chunks) == Backfill(RowsOf(table.Keys, chunks))
    decreases |chunks|
  {
    hide LoadChunk, Backfill, ChunkOk;
    if chunks != [] {
      LoadKeepsBackfill(table, chunks[0]);
      var next := LoadChunk(table, chunks[0]);
      BackfillKeys(table.Keys + chunks[0]);
      ChunksAreOneBackfill(next, chunks[1..]);
    }
  }

  lemma BackfillKeys(rows: set<Row>)
    ensures Backfill(rows).Keys == rows
  {
  }

  // --- what a row's change is ------------------------------------------------------------------

  /** The newest point of the row's series before it. */
  predicate IsPrevious(rows: set<Row>, row: Row, p: Row) {
    && p in rows && p.series == row.series && p.timestamp < row.timestamp
    && forall q | q in rows && q.series == row.series && q.timestamp < row.timestamp :: q.timestamp <= p.timestamp
  }

  predicate IsFirst(rows: set<Row>, row: Row) {
    forall q | q in rows && q.series == row.series :: row.timestamp <= q.timestamp
  }

  predicate IsFirstPush(rows: set<Row>, row: Row) {
    forall q | q in rows && q.series.host == row.series.host :: row.timestamp <= q.timestamp
  }

  /** A running total's change: unknown at the host's first push, the whole total where the series is new
      or restarted, else what was added. */
  predicate IsChange(change: Option<real>, total: real, first: bool, firstPush: bool, fell: bool, previous: real) {
    if first && firstPush then change == None
    else if first || fell then change == Some(total)
    else change == Some(total - previous)
  }

  /** A gauge has no change, a counter's value has one, a histogram's sum and count have one each and
      restart together. */
  predicate AreChanges(row: Row, delta: Delta, previous: Option<Row>, firstPush: bool) {
    match row.kind
    case Gauge => delta == Delta(None, None)
    case CounterKind =>
      && delta.samplesAdded == None
      && (match previous
          case None => IsChange(delta.increase, row.value, true, firstPush, false, 0.0)
          case Some(p) => IsChange(delta.increase, row.value, false, firstPush, row.value < p.value, p.value))
    case Histogram =>
      row.sum.Some? && row.count.Some? ==>
        match previous
        case None =>
          && IsChange(delta.increase, row.sum.value, true, firstPush, false, 0.0)
          && IsChange(delta.samplesAdded, row.count.value, true, firstPush, false, 0.0)
        case Some(p) =>
          p.sum.Some? && p.count.Some? ==>
            var fell := row.sum.value < p.sum.value || row.count.value < p.count.value;
            && IsChange(delta.increase, row.sum.value, false, firstPush, fell, p.sum.value)
            && IsChange(delta.samplesAdded, row.count.value, false, firstPush, fell, p.count.value)
  }

  lemma DeltaIsChanges(row: Row, previous: Option<Row>, noPush: bool)
    ensures AreChanges(row, DeltaOf(row, previous, noPush), previous, noPush)
  {
  }

  lemma PreviousIs(rows: set<Row>, row: Row)
    requires Distinct(rows)
    ensures IsFirst(rows, row) ==> Latest(Earlier(rows, row)) == None
    ensures forall p | p in rows && IsPrevious(rows, row, p) :: Latest(Earlier(rows, row)) == Some(p)
    ensures IsFirstPush(rows, row) <==> !EarlierPush(rows, row)
  {
    LatestOfEarlier(rows, row);
    var earlier := Earlier(rows, row);
    forall p | p in rows && IsPrevious(rows, row, p) ensures Latest(earlier) == Some(p) {
      assert IsLatest(earlier, p);
    }
    if IsFirst(rows, row) {
      assert earlier == {};
    }
  }

  /** Each stored row's changes are against the newest point of its series before it, if there is one. */
  lemma StoredChangesAre(rows: set<Row>, row: Row)
    requires Distinct(rows) && row in rows
    ensures var delta, firstPush := Backfill(rows)[row], IsFirstPush(rows, row);
            && (IsFirst(rows, row) ==> AreChanges(row, delta, None, firstPush))
            && forall p | p in rows && IsPrevious(rows, row, p) :: AreChanges(row, delta, Some(p), firstPush)
  {
    hide DeltaOf, AreChanges, IsPrevious, IsFirst, IsFirstPush, EarlierPush, Latest, Earlier, Distinct;
    PreviousIs(rows, row);
    DeltaIsChanges(row, Latest(Earlier(rows, row)), !EarlierPush(rows, row));
  }
}
