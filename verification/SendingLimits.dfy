/** Sending limits: an atomic check-and-count script over Redis counters, seeded from the stored
    usage rows, and the flush that copies the counters back to those rows. Every Redis or SQL call
    is one action, so any number of checks interleave with one flusher. */
module SendingLimits {
  import opened Wrappers

  // --- data ----------------------------------------------------------------------------------

  datatype Period = Day(n: nat) | Month(n: nat)

  datatype Key = Key(account: string, period: Period)

  datatype Counter = Counter(sent: nat, refused: nat)

  datatype Limits = Limits(daily: nat, monthly: nat)

  /** The UTC day and month, and the month it was a day before. */
  datatype Clock = Clock(day: nat, month: nat, lastMonth: nat)

  /** `reportable_periods`: today, this month, and those of a day before. */
  predicate Reportable(period: Period, now: Clock) {
    match period
    case Day(n) => n == now.day || n + 1 == now.day
    case Month(n) => n == now.month || n == now.lastMonth
  }

  predicate Begun(period: Period, now: Clock) {
    match period
    case Day(n) => n <= now.day
    case Month(n) => n <= now.month
  }

  function Tick(now: Clock, newMonth: bool): Clock {
    Clock(now.day + 1, if newMonth then now.month + 1 else now.month, now.month)
  }

  type Counters = map<Key, Counter>

  const ZERO: Counter := Counter(0, 0)

  function CountOf(counters: Counters, key: Key): Counter {
    if key in counters then counters[key] else ZERO
  }

  // --- the script ----------------------------------------------------------------------------

  datatype Seed = Seed(day: Counter, month: Counter)

  datatype Verdict = NeedsSeed | Sent | DailyLimit | MonthlyLimit

  function DayKey(account: string, at: Clock): Key { Key(account, Day(at.day)) }

  function MonthKey(account: string, at: Clock): Key { Key(account, Month(at.month)) }

  /** HSETNX: a counter that is there keeps its values. */
  function Seeded(counters: Counters, key: Key, seed: Counter): Counters {
    if key in counters then counters else counters[key := seed]
  }

  function StartedCounters(counters: Counters, day: Key, month: Key, seed: Option<Seed>): Counters {
    if seed.Some? then Seeded(Seeded(counters, day, seed.value.day), month, seed.value.month) else counters
  }

  function VerdictOf(counters: Counters, day: Key, month: Key, limits: Limits): Verdict {
    if CountOf(counters, day).sent + 1 > limits.daily then DailyLimit
    else if CountOf(counters, month).sent + 1 > limits.monthly then MonthlyLimit
    else Sent
  }

  function Counted(counter: Counter, verdict: Verdict): Counter {
    if verdict == Sent then counter.(sent := counter.sent + 1) else counter.(refused := counter.refused + 1)
  }

  function ScriptVerdict(counters: Counters, day: Key, month: Key, limits: Limits, seed: Option<Seed>): Verdict {
    if seed.None? && (day !in counters || month !in counters) then NeedsSeed
    else VerdictOf(StartedCounters(counters, day, month, seed), day, month, limits)
  }

  function ScriptCounters(counters: Counters, day: Key, month: Key, limits: Limits, seed: Option<Seed>): Counters {
    var verdict := ScriptVerdict(counters, day, month, limits, seed);
    if verdict == NeedsSeed then counters
    else
      var started := StartedCounters(counters, day, month, seed);
      started[day := Counted(CountOf(started, day), verdict)][month := Counted(CountOf(started, month), verdict)]
  }

  /** What one counted recipient does, in counts and limits: it is sent if and only if the day's and the
      month's count are below their limits, a reached day is reported before a reached month, and both
      counters go up by it, as sent or as refused. No other counter changes. */
  ghost predicate CountsOne(before: Counters, startDay: Counter, startMonth: Counter, day: Key, month: Key,
                            limits: Limits, verdict: Verdict, after: Counters)
  {
    && (verdict == Sent <==> startDay.sent < limits.daily && startMonth.sent < limits.monthly)
    && (verdict == DailyLimit <==> startDay.sent >= limits.daily)
    && (verdict == MonthlyLimit <==> startDay.sent < limits.daily && startMonth.sent >= limits.monthly)
    && after.Keys == before.Keys + {day, month}
    && (forall key | key in before && key != day && key != month :: after[key] == before[key])
    && (if verdict == Sent then
          && after[day] == Counter(startDay.sent + 1, startDay.refused)
          && after[month] == Counter(startMonth.sent + 1, startMonth.refused)
        else
          && after[day] == Counter(startDay.sent, startDay.refused + 1)
          && after[month] == Counter(startMonth.sent, startMonth.refused + 1))
  }

  /** A script run counts on from the counters that are there, and from the seed for one that is not; it
      counts nothing without a seed while one is missing. */
  ghost predicate ChecksOne(before: Counters, day: Key, month: Key, limits: Limits, seed: Option<Seed>,
                            verdict: Verdict, after: Counters)
  {
    && (verdict == NeedsSeed <==> seed.None? && (day !in before || month !in before))
    && (verdict == NeedsSeed ==> after == before)
    && (seed.Some? || (day in before && month in before) ==>
          CountsOne(before, if day in before then before[day] else seed.value.day,
                    if month in before then before[month] else seed.value.month, day, month, limits, verdict, after))
  }

  lemma ScriptChecksOne(counters: Counters, day: Key, month: Key, limits: Limits, seed: Option<Seed>)
    requires day != month
    ensures ChecksOne(counters, day, month, limits, seed, ScriptVerdict(counters, day, month, limits, seed),
                      ScriptCounters(counters, day, month, limits, seed))
  {
  }

  // --- storing -------------------------------------------------------------------------------

  function Max(a: nat, b: nat): nat { if a < b then b else a }

  function Greater(a: Counter, b: Counter): Counter {
    Counter(Max(a.sent, b.sent), Max(a.refused, b.refused))
  }

  /** No count of `c` is smaller than either's, and none greater than needed for that. */
  predicate IsLeastOver(c: Counter, a: Counter, b: Counter) {
    && a.sent <= c.sent && b.sent <= c.sent && (c.sent == a.sent || c.sent == b.sent)
    && a.refused <= c.refused && b.refused <= c.refused && (c.refused == a.refused || c.refused == b.refused)
  }

  /** `upsert_usage`: the greater count of each column is kept. */
  function Upserted(rows: Counters, written: Counters): Counters {
    map key | key in rows.Keys + written.Keys ::
      if key in rows && key in written then Greater(rows[key], written[key])
      else if key in written then written[key] else rows[key]
  }

  // --- the cache and the flush in place ------------------------------------------------------

  class Cache {
    var counters: Counters
    var touched: set<Key>
    var flushing: set<Key>

    constructor ()
      ensures counters == map[] && touched == {} && flushing == {}
    {
      counters, touched, flushing := map[], {}, {};
    }

    /** The script: one atomic step of Redis. */
    method RunCheck(day: Key, month: Key, limits: Limits, seed: Option<Seed>) returns (verdict: Verdict)
      requires day != month
      modifies this`counters, this`touched
      ensures ChecksOne(old(counters), day, month, limits, seed, verdict, counters)
      ensures verdict == ScriptVerdict(old(counters), day, month, limits, seed)
      ensures counters == ScriptCounters(old(counters), day, month, limits, seed)
      ensures touched == if verdict == NeedsSeed then old(touched) else old(touched) + {day, month}
    {
      ScriptChecksOne(counters, day, month, limits, seed);
      hide ChecksOne;
      if seed.Some? {
        if day !in counters {
          counters := counters[day := seed.value.day];
        }
        if month !in counters {
          counters := counters[month := seed.value.month];
        }
      } else if day !in counters || month !in counters {
        return NeedsSeed;
      }
      if counters[day].sent + 1 > limits.daily {
        verdict := DailyLimit;
      } else if counters[month].sent + 1 > limits.monthly {
        verdict := MonthlyLimit;
      } else {
        verdict := Sent;
      }
      counters := counters[day := Counted(counters[day], verdict)];
      counters := counters[month := Counted(counters[month], verdict)];
      touched := touched + {day, month};
    }
  }

  /** Suite Cloud's own rows. */
  class Usage {
    var rows: Counters
    var accounts: set<string>

    constructor (accounts: set<string>)
      ensures rows == map[] && this.accounts == accounts
    {
      rows, this.accounts := map[], accounts;
    }

    /** One statement of the flush. A written row of an existing account ends up as the least counts that
        are no smaller than its old and its written ones; no other row is made, lost or changed. */
    method UpsertUsage(written: Counters)
      modifies this`rows
      ensures forall key :: key in rows <==> key in old(rows) || (key in written && key.account in accounts)
      ensures forall key | key in old(rows) && !(key in written && key.account in accounts) ::
                rows[key] == old(rows)[key]
      ensures forall key | key in written && key.account in accounts ::
                IsLeastOver(rows[key], CountOf(old(rows), key), written[key])
      ensures rows == Upserted(old(rows), map key | key in written && key.account in accounts :: written[key])
    {
      rows := Upserted(rows, map key | key in written && key.account in accounts :: written[key]);
    }
  }

  /** What a counter counts on from: itself, else its stored row, else nothing. */
  function StartOf(counters: Counters, rows: Counters, key: Key): Counter {
    if key in counters then counters[key] else if key in rows then rows[key] else Counter(0, 0)
  }

  /** `count_recipient` of an account of the calling cluster, run alone: the recipient is sent exactly
      when neither limit is reached, counting from the cache or else from the stored rows. */
  method CountRecipient(cache: Cache, usage: Usage, account: string, at: Clock, limits: Limits)
      returns (verdict: Verdict)
    modifies cache`counters, cache`touched
    ensures var day, month, before := Key(account, Day(at.day)), Key(account, Month(at.month)), old(cache.counters);
            && verdict != NeedsSeed
            && CountsOne(before, StartOf(before, usage.rows, day), StartOf(before, usage.rows, month), day, month,
                         limits, verdict, cache.counters)
            && cache.touched == old(cache.touched) + {day, month}
  {
    var day, month := DayKey(account, at), MonthKey(account, at);
    verdict := cache.RunCheck(day, month, limits, None);
    if verdict == NeedsSeed {
      var seed := Seed(CountOf(usage.rows, day), CountOf(usage.rows, month));
      verdict := cache.RunCheck(day, month, limits, Some(seed));
    }
  }

  /** What a run of the flush that nothing disturbs writes. */
  function Flushable(counters: Counters, members: set<Key>, now: Clock): Counters {
    map key | key in members && Reportable(key.period, now) && key in counters :: counters[key]
  }

  function Kept(written: Counters, accounts: set<string>): Counters {
    map key | key in written && key.account in accounts :: written[key]
  }

  predicate IsFlushed(key: Key, members: set<Key>, counters: Counters, accounts: set<string>, now: Clock) {
    key in members && key in counters && key.account in accounts && Reportable(key.period, now)
  }

  /** The rows after a flush: those of its reportable members with a counter and an account hold the least
      counts over the row and the counter, every other row is as it was. */
  ghost predicate Flushes(rows: Counters, members: set<Key>, counters: Counters, accounts: set<string>, now: Clock,
                          after: Counters)
  {
    && (forall key :: key in after <==> key in rows || IsFlushed(key, members, counters, accounts, now))
    && (forall key | key in rows && !IsFlushed(key, members, counters, accounts, now) :: after[key] == rows[key])
    && forall key | key in counters && IsFlushed(key, members, counters, accounts, now) ::
         IsLeastOver(after[key], CountOf(rows, key), counters[key])
  }

  lemma FlushesIs(rows: Counters, members: set<Key>, counters: Counters, accounts: set<string>, now: Clock)
    ensures Flushes(rows, members, counters, accounts, now,
                    Upserted(rows, Kept(Flushable(counters, members, now), accounts)))
  {
    hide Reportable;
  }

  /** A day and a month are reportable while they are current, through the day after their last, and no
      longer. */
  lemma ReportableWhile(now: Clock, newMonth: bool, laterMonth: bool)
    requires now.lastMonth <= now.month
    ensures Reportable(Day(now.day), now) && Reportable(Month(now.month), now)
    ensures Reportable(Day(now.day), Tick(now, newMonth)) && Reportable(Month(now.month), Tick(now, newMonth))
    ensures var later := Tick(Tick(now, newMonth), laterMonth);
            && !Reportable(Day(now.day), later)
            && (Reportable(Month(now.month), later) <==> !newMonth)
  {
  }

  /** `flush_usage` run alone: the members of an interrupted run first, in batches, then the set is
      deleted. Nothing of the counters changes. */
  method FlushUsage(cache: Cache, usage: Usage, now: Clock, batchSize: nat)
    requires batchSize > 0
    modifies cache`touched, cache`flushing, usage`rows
    ensures cache.flushing == {}
    ensures cache.touched == if old(cache.flushing) == {} then {} else old(cache.touched)
    ensures var members := if old(cache.flushing) == {} then old(cache.touched) else old(cache.flushing);
            Flushes(old(usage.rows), members, cache.counters, usage.accounts, now, usage.rows)
  {
    FlushesIs(usage.rows, if cache.flushing == {} then cache.touched else cache.flushing, cache.counters,
              usage.accounts, now);
    if cache.flushing == {} {
      if cache.touched == {} {
        UpsertNothing(usage.rows);
        assert Kept(Flushable(cache.counters, {}, now), usage.accounts) == map[];
        return;
      }
      cache.flushing, cache.touched := cache.touched, {};
    }
    WriteBatches(usage, Flushable(cache.counters, cache.flushing, now), batchSize);
    cache.flushing := {};
  }

  /** The upserts of one flush, a batch per statement. */
  method WriteBatches(usage: Usage, rows: Counters, batchSize: nat)
    requires batchSize > 0
    modifies usage`rows
    ensures usage.rows == Upserted(old(usage.rows), Kept(rows, usage.accounts))
  {
    var rest := rows;
    UpsertNothing(usage.rows);
    assert Kept(rows - rest.Keys, usage.accounts) == map[];
    while rest != map[]
      invariant rest.Keys <= rows.Keys && forall key | key in rest :: rest[key] == rows[key]
      invariant usage.rows == Upserted(old(usage.rows), Kept(rows - rest.Keys, usage.accounts))
      decreases |rest.Keys|
    {
      var batch := TakeBatch(rest, batchSize);
      var written := map key | key in rest && key in batch :: rest[key];
      usage.UpsertUsage(written);
      BatchAdds(old(usage.rows), rows, rest, batch, written, usage.accounts);
      rest := rest - batch;
    }
    assert rows - {} == rows;
  }

  lemma BatchAdds(old_: Counters, rows: Counters, rest: Counters, batch: set<Key>, written: Counters,
      accounts: set<string>)
    requires rest.Keys <= rows.Keys && (forall key | key in rest :: rest[key] == rows[key]) && batch <= rest.Keys
        && batch != {}
    requires written == map key | key in rest && key in batch :: rest[key]
    ensures Upserted(Upserted(old_, Kept(rows - rest.Keys, accounts)), Kept(written, accounts))
         == Upserted(old_, Kept(rows - (rest - batch).Keys, accounts))
    ensures |(rest - batch).Keys| < |rest.Keys|
  {
    hide Upserted;
    assert (rest - batch).Keys == rest.Keys - batch;
    assert rest.Keys == (rest.Keys - batch) + batch;
    var a, b := Kept(rows - rest.Keys, accounts), Kept(written, accounts);
    UpsertTwice(old_, a, b);
    KeptSplits(rows, rest, batch, written, accounts);
  }

  lemma KeptSplits(rows: Counters, rest: Counters, batch: set<Key>, written: Counters, accounts: set<string>)
    requires rest.Keys <= rows.Keys && (forall key | key in rest :: rest[key] == rows[key]) && batch <= rest.Keys
    requires written == map key | key in rest && key in batch :: rest[key]
    ensures Kept(rows - rest.Keys, accounts) + Kept(written, accounts) == Kept(rows - (rest - batch).Keys, accounts)
  {
    var left, right := Kept(rows - rest.Keys, accounts) + Kept(written, accounts),
        Kept(rows - (rest - batch).Keys, accounts);
    forall key ensures key in left <==> key in right {
    }
    forall key | key in left ensures left[key] == right[key] {
    }
  }

  method TakeBatch(rows: Counters, size: nat) returns (batch: set<Key>)
    requires rows != map[] && size > 0
    ensures batch <= rows.Keys && batch != {} && |batch| <= size
  {
    batch := {};
    var rest := rows.Keys;
    while |batch| < size && rest != {}
      invariant batch + rest == rows.Keys && batch !! rest && |batch| <= size
      decreases |rest|
    {
      var key :| key in rest;
      batch, rest := batch + {key}, rest - {key};
    }
  }

  lemma UpsertNothing(rows: Counters)
    ensures Upserted(rows, map[]) == rows
  {
  }

  lemma UpsertTwice(rows: Counters, a: Counters, b: Counters)
    requires a.Keys !! b.Keys
    ensures Upserted(Upserted(rows, a), b) == Upserted(rows, a + b)
  {
  }
}
