/** What the stored changes of one series add up to. */
module MetricTotals {
  import opened Wrappers
  import opened Metrics

  /** The two delta columns. */
  datatype Column = Increase | SamplesAdded

  /** A row that has the running total the column follows. */
  predicate Countable(column: Column, row: Row) {
    match row.kind
    case Gauge => false
    case CounterKind => column.Increase?
    case Histogram => row.sum.Some? && row.count.Some?
  }

  function Total(column: Column, row: Row): real
    requires Countable(column, row)
  {
    match column
    case Increase => if row.kind.Histogram? then row.sum.value else row.value
    case SamplesAdded => row.count.value
  }

  /** A chart's sum skips NULL. */
  function Added(column: Column, delta: Delta): real {
    var change := if column.Increase? then delta.increase else delta.samplesAdded;
    if change.Some? then change.value else 0.0
  }

  /** Any running total of the row fell. */
  predicate Fell(row: Row, previous: Row) {
    match row.kind
    case Gauge => false
    case CounterKind => row.value < previous.value
    case Histogram =>
      || (row.count.Some? && previous.count.Some? && row.count.value < previous.count.value)
      || (row.sum.Some? && previous.sum.Some? && row.sum.value < previous.sum.value)
  }

  predicate Ascending(run: seq<Row>) {
    forall i, j | 0 <= i < j < |run| :: run[i].timestamp < run[j].timestamp
  }

  /** `run` is one whole series of the table in time order. */
  predicate IsSeries(rows: set<Row>, run: seq<Row>, column: Column) {
    && |run| > 0
    && Ascending(run)
    && (forall i | 0 <= i < |run| ::
          run[i] in rows && run[i].series == run[0].series && run[i].kind == run[0].kind && Countable(column, run[i]))
    && forall p | p in rows && p.series == run[0].series :: p in run
  }

  lemma PreviousInRun(rows: set<Row>, run: seq<Row>, column: Column, i: nat)
    requires Distinct(rows) && IsSeries(rows, run, column) && i < |run|
    ensures Latest(Earlier(rows, run[i])) == if i == 0 then None else Some(run[i - 1])
    ensures i > 0 ==> EarlierPush(rows, run[i])
  {
    LatestOfEarlier(rows, run[i]);
    forall p | p in Earlier(rows, run[i]) ensures i > 0 && p.timestamp <= run[i - 1].timestamp {
      var k :| 0 <= k < |run| && run[k] == p;
      assert k < i;
      assert k == i - 1 || run[k].timestamp < run[i - 1].timestamp;
    }
    if i > 0 {
      assert IsLatest(Earlier(rows, run[i]), run[i - 1]);
    }
  }

  /** What a backfilled row adds, by its place in the series. */
  lemma AddedAt(rows: set<Row>, run: seq<Row>, column: Column, i: nat)
    requires Distinct(rows) && IsSeries(rows, run, column) && i < |run|
    ensures Added(column, Backfill(rows)[run[i]]) ==
            if i == 0 then (if EarlierPush(rows, run[0]) then Total(column, run[0]) else 0.0)
            else if Fell(run[i], run[i - 1]) then Total(column, run[i])
            else Total(column, run[i]) - Total(column, run[i - 1])
  {
    hide Distinct, Earlier, EarlierPush, Latest;
    PreviousInRun(rows, run, column, i);
  }

  // --- sums of changes -----------------------------------------------------------------------

  function SumFrom(table: Table, run: seq<Row>, column: Column, i: nat): real
    requires i <= |run| && forall k | 0 <= k < |run| :: run[k] in table
    decreases |run| - i
  {
    if i == |run| then 0.0 else Added(column, table[run[i]]) + SumFrom(table, run, column, i + 1)
  }

  /** The last totals of the restart-free segments from the i-th point on. */
  function SegmentEnds(run: seq<Row>, column: Column, i: nat): real
    requires i <= |run| && forall k | 0 <= k < |run| :: Countable(column, run[k])
    decreases |run| - i
  {
    if i == |run| then 0.0
    else
      (if i == |run| - 1 || Fell(run[i + 1], run[i]) then Total(column, run[i]) else 0.0)
      + SegmentEnds(run, column, i + 1)
  }

  /** Nothing is subtracted from a series whose host pushed before; else its first total is. */
  function Baseline(rows: set<Row>, run: seq<Row>, column: Column): real
    requires |run| > 0 && Countable(column, run[0])
  {
    if EarlierPush(rows, run[0]) then 0.0 else Total(column, run[0])
  }

  lemma {:induction false} RestTelescopes(rows: set<Row>, run: seq<Row>, column: Column, i: nat)
    requires Distinct(rows) && IsSeries(rows, run, column) && 0 < i <= |run|
    ensures SumFrom(Backfill(rows), run, column, i) ==
            SegmentEnds(run, column, i - 1) - Total(column, run[i - 1])
    decreases |run| - i
  {
    hide Distinct, Earlier, EarlierPush, Latest, Fell, Added;
    if i < |run| {
      AddedAt(rows, run, column, i);
      RestTelescopes(rows, run, column, i + 1);
    }
  }

  /** The changes of a series add up to the last total of each restart-free segment, less the
      baseline taken at the host's first push. */
  lemma IncreasesTelescope(rows: set<Row>, run: seq<Row>, column: Column)
    requires Distinct(rows) && IsSeries(rows, run, column)
    ensures SumFrom(Backfill(rows), run, column, 0) == SegmentEnds(run, column, 0) - Baseline(rows, run, column)
  {
    AddedAt(rows, run, column, 0);
    RestTelescopes(rows, run, column, 1);
  }

  /** The same of what the loader stored, chunk by chunk. */
  lemma LoadedIncreasesTelescope(chunks: seq<set<Row>>, run: seq<Row>, column: Column)
    requires ChunksOk({}, chunks)
    requires var rows := RowsOf({}, chunks); Distinct(rows) && IsSeries(rows, run, column)
    ensures var rows, table := RowsOf({}, chunks), LoadAll(map[], chunks);
            && (forall k | 0 <= k < |run| :: run[k] in table)
            && SumFrom(table, run, column, 0) == SegmentEnds(run, column, 0) - Baseline(rows, run, column)
  {
    var none: Table := map[];
    assert none.Keys == {};
    assert none == Backfill(none.Keys);
    ChunksAreOneBackfill(none, chunks);
    IncreasesTelescope(RowsOf({}, chunks), run, column);
  }

  // --- what really happened ------------------------------------------------------------------

  /** What a server did since the push before a point: it may have restarted, which starts its
      totals at zero again, and its totals have grown since then. */
  datatype Span = Span(restarted: bool, increase: real, samples: real) {
    function Grew(column: Column): real {
      if column.Increase? then increase else samples
    }
  }

  predicate Grows(span: Span) {
    span.increase >= 0.0 && span.samples >= 0.0
  }

  predicate Follows(column: Column, before: real, after: real, span: Span)
  {
    after == (if span.restarted then 0.0 else before) + span.Grew(column)
  }

  /** Each point's total follows from the one before it by its span. A run that starts after the first push
      of its host started from nothing, and one that starts with it has no known growth yet. */
  predicate Lived(rows: set<Row>, run: seq<Row>, spans: seq<Span>, column: Column)
    requires IsSeries(rows, run, column)
  {
    && |spans| == |run|
    && (forall i | 0 <= i < |run| :: Grows(spans[i]))
    && Total(column, run[0]) >= 0.0
    && spans[0].Grew(column) == (if EarlierPush(rows, run[0]) then Total(column, run[0]) else 0.0)
    && forall i | 0 < i < |run| :: StepLived(run[i - 1], run[i], spans[i])
  }

  predicate StepLived(before: Row, after: Row, span: Span) {
    && Grows(span)
    && before.kind == after.kind
    && (Countable(Increase, before) && Countable(Increase, after) ==>
          Follows(Increase, Total(Increase, before), Total(Increase, after), span))
    && (Countable(SamplesAdded, before) && Countable(SamplesAdded, after) ==>
          Follows(SamplesAdded, Total(SamplesAdded, before), Total(SamplesAdded, after), span))
  }

  function Growth(spans: seq<Span>, column: Column, i: nat): real
    requires i <= |spans|
    decreases |spans| - i
  {
    if i == |spans| then 0.0 else spans[i].Grew(column) + Growth(spans, column, i + 1)
  }

  /** A restart after which no total of the point is below the one before. */
  predicate Missed(run: seq<Row>, spans: seq<Span>, i: nat)
    requires |spans| == |run| && 0 < i < |run|
  {
    spans[i].restarted && !Fell(run[i], run[i - 1])
  }

  function MissedFrom(run: seq<Row>, spans: seq<Span>, column: Column, i: nat): real
    requires |spans| == |run| && 0 < i <= |run|
    requires forall k | 0 <= k < |run| :: Countable(column, run[k])
    decreases |run| - i
  {
    if i == |run| then 0.0
    else (if Missed(run, spans, i) then Total(column, run[i - 1]) else 0.0) + MissedFrom(run, spans, column, i + 1)
  }

  predicate TotalsAreNonNegative(run: seq<Row>, column: Column)
    requires forall k | 0 <= k < |run| :: Countable(column, run[k])
  {
    forall k | 0 <= k < |run| :: Total(column, run[k]) >= 0.0
  }

  lemma {:induction false} LivedIsNonNegative(rows: set<Row>, run: seq<Row>, spans: seq<Span>, column: Column, k: nat)
    requires IsSeries(rows, run, column) && Lived(rows, run, spans, column) && k < |run|
    ensures Total(column, run[k]) >= 0.0
  {
    hide EarlierPush;
    if k > 0 {
      LivedIsNonNegative(rows, run, spans, column, k - 1);
      assert StepLived(run[k - 1], run[k], spans[k]);
    }
  }

  lemma {:induction false} RestIsGrowth(rows: set<Row>, run: seq<Row>, spans: seq<Span>, column: Column, i: nat)
    requires Distinct(rows) && IsSeries(rows, run, column) && Lived(rows, run, spans, column) && 0 < i <= |run|
    ensures SumFrom(Backfill(rows), run, column, i) ==
            Growth(spans, column, i) - MissedFrom(run, spans, column, i)
    decreases |run| - i
  {
    hide Distinct, Earlier, EarlierPush, Latest, Added;
    if i < |run| {
      AddedAt(rows, run, column, i);
      assert StepLived(run[i - 1], run[i], spans[i]);
      RestIsGrowth(rows, run, spans, column, i + 1);
    }
  }

  lemma {:induction false} MissedIsZero(run: seq<Row>, spans: seq<Span>, column: Column, i: nat)
    requires |spans| == |run| && 0 < i <= |run|
    requires forall k | 0 <= k < |run| :: Countable(column, run[k])
    requires TotalsAreNonNegative(run, column)
    ensures MissedFrom(run, spans, column, i) >= 0.0
    ensures MissedFrom(run, spans, column, i) == 0.0 <==>
            forall k | i <= k < |run| && Missed(run, spans, k) :: Total(column, run[k - 1]) == 0.0
    decreases |run| - i
  {
    hide Fell;
    if i < |run| {
      MissedIsZero(run, spans, column, i + 1);
    }
  }

  /** The changes of a series never add up to more than the server's totals really grew, and to
      exactly that if and only if no restart was missed that left a total behind it: every restart
      shows as a total that fell, or follows a total of zero. */
  lemma IncreasesAreGrowth(rows: set<Row>, run: seq<Row>, spans: seq<Span>, column: Column)
    requires Distinct(rows) && IsSeries(rows, run, column) && Lived(rows, run, spans, column)
    ensures SumFrom(Backfill(rows), run, column, 0) ==
            Growth(spans, column, 0) - MissedFrom(run, spans, column, 1)
    ensures SumFrom(Backfill(rows), run, column, 0) <= Growth(spans, column, 0)
    ensures SumFrom(Backfill(rows), run, column, 0) == Growth(spans, column, 0) <==>
            forall k | 0 < k < |run| && Missed(run, spans, k) :: Total(column, run[k - 1]) == 0.0
  {
    AddedAt(rows, run, column, 0);
    RestIsGrowth(rows, run, spans, column, 1);
    forall k | 0 <= k < |run| ensures Total(column, run[k]) >= 0.0 {
      LivedIsNonNegative(rows, run, spans, column, k);
    }
    MissedIsZero(run, spans, column, 1);
  }
}
