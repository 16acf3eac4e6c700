/** Telemetry batches on their way into the warehouse: a directory of staged files, one table, and the
    loader that moves rows from one to the other. */
module Staging {

  /** One outbound scan record; a record that does not parse gives no row. */
  datatype Record = Record(time: int, account: string, messageId: string, parses: bool)

  /** A batch id is a digest of the records in their order, so the records stand for it. */
  type Batch = seq<Record>

  datatype Row = Row(batch: Batch, record: Record)

  const BATCH_FILES: nat := 200

  predicate NoDuplicates<T(==)>(items: seq<T>) {
    forall i, j | 0 <= i < j < |items| :: items[i] != items[j]
  }

  // --- rows ----------------------------------------------------------------------------------

  function RowsFrom(batch: Batch, records: seq<Record>): seq<Row> {
    if records == [] then []
    else (if records[0].parses then [Row(batch, records[0])] else []) + RowsFrom(batch, records[1..])
  }

  function RowsOf(batch: Batch): seq<Row> {
    RowsFrom(batch, batch)
  }

  predicate IsIn(table: seq<Row>, batch: Batch) {
    exists i | 0 <= i < |table| :: table[i].batch == batch
  }

  /** The rows of the files whose batch the table does not hold yet. */
  function Incoming(table: seq<Row>, files: seq<Batch>): seq<Row> {
    if files == [] then []
    else (if IsIn(table, files[0]) then [] else RowsOf(files[0])) + Incoming(table, files[1..])
  }

  lemma {:induction false} RowsFromHas(batch: Batch, records: seq<Record>, row: Row)
    ensures row in RowsFrom(batch, records) <==> row.batch == batch && row.record in records && row.record.parses
  {
    if records != [] {
      RowsFromHas(batch, records[1..], row);
      assert records == [records[0]] + records[1..];
    }
  }

  lemma {:induction false} RowsFromOnce(batch: Batch, records: seq<Record>)
    requires NoDuplicates(records)
    ensures NoDuplicates(RowsFrom(batch, records))
  {
    if records != [] {
      RowsFromOnce(batch, records[1..]);
      RowsFromHas(batch, records[1..], Row(batch, records[0]));
    }
  }

  /** A record of a file no row of the table came from. */
  predicate IsNew(table: seq<Row>, files: seq<Batch>, row: Row) {
    row.batch in files && !IsIn(table, row.batch) && row.record in row.batch && row.record.parses
  }

  lemma {:induction false} IncomingHas(table: seq<Row>, files: seq<Batch>, row: Row)
    ensures row in Incoming(table, files) <==> IsNew(table, files, row)
  {
    hide IsIn;
    if files != [] {
      IncomingHas(table, files[1..], row);
      RowsFromHas(files[0], files[0], row);
      assert files == [files[0]] + files[1..];
    }
  }

  lemma Joined<T>(a: seq<T>, b: seq<T>)
    requires NoDuplicates(a) && NoDuplicates(b) && forall x | x in a :: x !in b
    ensures NoDuplicates(a + b)
  {
    var both := a + b;
    forall i, j | 0 <= i < j < |both| ensures both[i] != both[j] {
      if i < |a| <= j {
        assert both[i] in a && both[j] in b;
      }
    }
  }

  lemma {:induction false} IncomingOnce(table: seq<Row>, files: seq<Batch>)
    requires NoDuplicates(files) && forall file | file in files :: NoDuplicates(file)
    ensures NoDuplicates(Incoming(table, files))
  {
    hide IsIn;
    if files != [] {
      IncomingOnce(table, files[1..]);
      RowsFromOnce(files[0], files[0]);
      forall row | row in RowsOf(files[0]) ensures row !in Incoming(table, files[1..]) {
        RowsFromHas(files[0], files[0], row);
        IncomingHas(table, files[1..], row);
      }
      Joined(if IsIn(table, files[0]) then [] else RowsOf(files[0]), Incoming(table, files[1..]));
    }
  }

  /** Loading leaves each row in the table once, and a file met again adds nothing. */
  lemma LoadedOnce(table: seq<Row>, files: seq<Batch>)
    requires NoDuplicates(table) && NoDuplicates(files) && forall file | file in files :: NoDuplicates(file)
    ensures NoDuplicates(table + Incoming(table, files))
  {
    IncomingOnce(table, files);
    forall row | row in table ensures row !in Incoming(table, files) {
      IncomingHas(table, files, row);
    }
    Joined(table, Incoming(table, files));
  }

  /** Loading any of the files of an earlier load again adds no row. */
  lemma {:induction false} SecondLoadAddsNothing(table: seq<Row>, files: seq<Batch>, again: seq<Batch>)
    requires forall file | file in again :: file in files
    ensures Incoming(table + Incoming(table, files), again) == []
  {
    var loaded := table + Incoming(table, files);
    forall file | file in again ensures IsIn(loaded, file) || RowsOf(file) == [] {
      if IsIn(table, file) {
        var i :| 0 <= i < |table| && table[i].batch == file;
        assert loaded[i].batch == file;
      } else if RowsOf(file) != [] {
        var row := RowsOf(file)[0];
        RowsFromHas(file, file, row);
        IncomingHas(table, files, row);
        assert row in loaded;
      }
    }
    NothingNew(loaded, again);
  }

  lemma {:induction false} NothingNew(table: seq<Row>, files: seq<Batch>)
    requires forall file | file in files :: IsIn(table, file) || RowsOf(file) == []
    ensures Incoming(table, files) == []
  {
    hide IsIn;
    if files != [] {
      NothingNew(table, files[1..]);
    }
  }

  // --- the staging directory -----------------------------------------------------------------

  function Removed(staged: seq<Batch>, batch: Batch): seq<Batch> {
    if staged == [] then [] else (if staged[0] == batch then [] else [staged[0]]) + Removed(staged[1..], batch)
  }

  function RemovedAll(staged: seq<Batch>, files: seq<Batch>): seq<Batch>
    decreases |files|
  {
    if files == [] then staged else RemovedAll(Removed(staged, files[0]), files[1..])
  }

  lemma {:induction false} RemovedHas(staged: seq<Batch>, batch: Batch, other: Batch)
    ensures other in Removed(staged, batch) <==> other in staged && other != batch
  {
    if staged != [] {
      RemovedHas(staged[1..], batch, other);
      assert staged == [staged[0]] + staged[1..];
    }
  }

  lemma {:induction false} RemovedAllHas(staged: seq<Batch>, files: seq<Batch>, other: Batch)
    ensures other in RemovedAll(staged, files) <==> other in staged && other !in files
    decreases |files|
  {
    if files != [] {
      RemovedHas(staged, files[0], other);
      RemovedAllHas(Removed(staged, files[0]), files[1..], other);
      assert files == [files[0]] + files[1..];
    }
  }

  lemma {:induction false} RemovedOnce(staged: seq<Batch>, batch: Batch)
    requires NoDuplicates(staged)
    ensures NoDuplicates(Removed(staged, batch))
  {
    if staged != [] {
      RemovedOnce(staged[1..], batch);
      RemovedHas(staged[1..], batch, staged[0]);
    }
  }

  lemma WrittenOnce(staged: seq<Batch>, batch: Batch)
    ensures forall other | other != batch :: other in Removed(staged, batch) + [batch] <==> other in staged
    ensures NoDuplicates(staged) ==> NoDuplicates(Removed(staged, batch) + [batch])
  {
    forall other ensures other in Removed(staged, batch) <==> other in staged && other != batch {
      RemovedHas(staged, batch, other);
    }
    if NoDuplicates(staged) {
      RemovedOnce(staged, batch);
      Joined(Removed(staged, batch), [batch]);
    }
  }

  lemma {:induction false} RemovedAbsent(staged: seq<Batch>, batch: Batch)
    requires batch !in staged
    ensures Removed(staged, batch) == staged
  {
    if staged != [] {
      RemovedAbsent(staged[1..], batch);
    }
  }

  lemma {:induction false} RemovedPrefix(staged: seq<Batch>, count: nat)
    requires NoDuplicates(staged) && count <= |staged|
    ensures RemovedAll(staged, staged[..count]) == staged[count..]
    decreases count
  {
    if count > 0 {
      RemovedAbsent(staged[1..], staged[0]);
      assert Removed(staged, staged[0]) == staged[1..];
      assert staged[..count][1..] == staged[1..][..count - 1];
      RemovedPrefix(staged[1..], count - 1);
    }
  }

  /** The files in the order they were written: the oldest first. */
  class Spool {
    var staged: seq<Batch>
    var rejected: set<Batch>

    constructor ()
      ensures staged == [] && rejected == {}
    {
      staged := [];
      rejected := {};
    }

    /** A batch is staged once, as the newest file, however often it is written; the other files stay. */
    method Write(batch: Batch)
      modifies this
      ensures staged != [] && staged[|staged| - 1] == batch
      ensures forall other | other != batch :: other in staged <==> other in old(staged)
      ensures NoDuplicates(old(staged)) ==> NoDuplicates(staged)
      ensures staged == Removed(old(staged), batch) + [batch] && rejected == old(rejected)
    {
      WrittenOnce(staged, batch);
      staged := Removed(staged, batch) + [batch];
    }

    method GetPending(limit: nat) returns (files: seq<Batch>)
      ensures files == if limit <= |staged| then staged[..limit] else staged
    {
      files := if limit <= |staged| then staged[..limit] else staged;
    }

    method Reject(batch: Batch)
      modifies this
      ensures staged == Removed(old(staged), batch) && rejected == old(rejected) + {batch}
    {
      staged := Removed(staged, batch);
      rejected := rejected + {batch};
    }

    method Delete(files: seq<Batch>)
      modifies this
      ensures staged == RemovedAll(old(staged), files) && rejected == old(rejected)
    {
      var i := 0;
      while i < |files|
        invariant 0 <= i <= |files|
        invariant RemovedAll(staged, files[i..]) == RemovedAll(old(staged), files)
        invariant rejected == old(rejected)
      {
        staged := Removed(staged, files[i]);
        i := i + 1;
      }
    }
  }

  // --- the loader ----------------------------------------------------------------------------

  function Readable(files: seq<Batch>, damaged: set<Batch>): seq<Batch> {
    if files == [] then []
    else (if files[0] in damaged then [] else [files[0]]) + Readable(files[1..], damaged)
  }

  function Damaged(files: seq<Batch>, damaged: set<Batch>): set<Batch> {
    set file | file in files && file in damaged
  }

  function RemovedSet(staged: seq<Batch>, gone: set<Batch>): seq<Batch> {
    if staged == [] then [] else (if staged[0] in gone then [] else [staged[0]]) + RemovedSet(staged[1..], gone)
  }

  lemma {:induction false} RemoveOneMore(staged: seq<Batch>, gone: set<Batch>, batch: Batch)
    ensures Removed(RemovedSet(staged, gone), batch) == RemovedSet(staged, gone + {batch})
  {
    if staged != [] {
      RemoveOneMore(staged[1..], gone, batch);
      var rest := RemovedSet(staged[1..], gone);
      if staged[0] in gone {
        assert RemovedSet(staged, gone) == rest;
      } else {
        assert ([staged[0]] + rest)[1..] == rest;
        assert Removed(RemovedSet(staged, gone), batch) ==
               (if staged[0] == batch then [] else [staged[0]]) + Removed(rest, batch);
      }
    }
  }

  lemma {:induction false} RemovedSetAbsent(staged: seq<Batch>, gone: set<Batch>)
    requires forall file | file in staged :: file !in gone
    ensures RemovedSet(staged, gone) == staged
  {
    if staged != [] {
      RemovedSetAbsent(staged[1..], gone);
    }
  }

  /** Of a prefix of the directory only the readable files are left once the damaged ones are gone. */
  lemma {:induction false} PrefixWithoutDamaged(staged: seq<Batch>, count: nat, damaged: set<Batch>)
    requires NoDuplicates(staged) && count <= |staged|
    ensures RemovedSet(staged, Damaged(staged[..count], damaged)) ==
            Readable(staged[..count], damaged) + staged[count..]
    decreases count
  {
    var gone := Damaged(staged[..count], damaged);
    if count == 0 {
      RemovedSetAbsent(staged, gone);
    } else {
      var rest := staged[1..];
      assert staged[..count][1..] == rest[..count - 1];
      var fewer := Damaged(rest[..count - 1], damaged);
      PrefixWithoutDamaged(rest, count - 1, damaged);
      SameOn(rest, gone, fewer) by {
        forall file | file in rest ensures file in gone <==> file in fewer {
          if file in gone {
            var i :| 0 <= i < count && staged[i] == file;
            assert rest[..count - 1][i - 1] == file;
          }
          if file in fewer {
            var i :| 0 <= i < count - 1 && rest[..count - 1][i] == file;
            assert staged[..count][i + 1] == file;
          }
        }
      }
      assert staged[0] in gone <==> staged[0] in damaged by {
        assert staged[..count][0] == staged[0];
      }
    }
  }

  lemma {:induction false} SameOn(staged: seq<Batch>, gone: set<Batch>, other: set<Batch>)
    requires forall file | file in staged :: file in gone <==> file in other
    ensures RemovedSet(staged, gone) == RemovedSet(staged, other)
  {
    if staged != [] {
      SameOn(staged[1..], gone, other);
    }
  }

  lemma {:induction false} ReadableHas(files: seq<Batch>, damaged: set<Batch>, file: Batch)
    ensures file in Readable(files, damaged) <==> file in files && file !in damaged
  {
    if files != [] {
      ReadableHas(files[1..], damaged, file);
      assert files == [files[0]] + files[1..];
    }
  }

  lemma {:induction false} ReadableOnce(files: seq<Batch>, damaged: set<Batch>)
    requires NoDuplicates(files)
    ensures NoDuplicates(Readable(files, damaged))
  {
    if files != [] {
      ReadableOnce(files[1..], damaged);
      ReadableHas(files[1..], damaged, files[0]);
    }
  }

  lemma {:induction false} ReadableIsAll(files: seq<Batch>, damaged: set<Batch>)
    ensures |Readable(files, damaged)| <= |files|
    ensures |Readable(files, damaged)| == |files| <==> forall i | 0 <= i < |files| :: files[i] !in damaged
  {
    if files != [] {
      ReadableIsAll(files[1..], damaged);
      assert forall i | 0 < i < |files| :: files[i] == files[1..][i - 1];
    }
  }

  lemma NoneYet(files: seq<Batch>, damaged: set<Batch>)
    ensures Damaged(files[..0], damaged) == {} && files[0..] == files
  {
  }

  lemma NoneLeft(files: seq<Batch>, damaged: set<Batch>)
    ensures Readable(files[|files|..], damaged) == []
  {
  }

  lemma OneFurther(files: seq<Batch>, i: nat, damaged: set<Batch>)
    requires i < |files|
    ensures Damaged(files[..i + 1], damaged) ==
            if files[i] in damaged then Damaged(files[..i], damaged) + {files[i]} else Damaged(files[..i], damaged)
    ensures Readable(files[i..], damaged) ==
            (if files[i] in damaged then [] else [files[i]]) + Readable(files[i + 1..], damaged)
  {
    assert files[..i + 1] == files[..i] + [files[i]];
    assert files[i..][1..] == files[i + 1..];
  }

  function ChunkSize(staged: seq<Batch>): nat {
    if |staged| < BATCH_FILES then |staged| else BATCH_FILES
  }

  /** What one run leaves staged: it stops at the first chunk that gave fewer files than a full one. */
  function LeftStaged(staged: seq<Batch>, damaged: set<Batch>): seq<Batch>
    decreases |staged|
  {
    var count := ChunkSize(staged);
    if |Readable(staged[..count], damaged)| < BATCH_FILES then staged[count..]
    else LeftStaged(staged[count..], damaged)
  }

  /** The table after one run. */
  function LoadedTable(table: seq<Row>, staged: seq<Batch>, damaged: set<Batch>): seq<Row>
    decreases |staged|
  {
    var count := ChunkSize(staged);
    var files := Readable(staged[..count], damaged);
    if |files| < BATCH_FILES then table + Incoming(table, files)
    else LoadedTable(table + Incoming(table, files), staged[count..], damaged)
  }

  class Warehouse {
    const spool: Spool
    var table: seq<Row>

    constructor (spool: Spool)
      ensures this.spool == spool && table == []
    {
      this.spool := spool;
      table := [];
    }

    /** The next chunk of files that read whole; the others of the chunk are moved aside. */
    method GetLoadable(damaged: set<Batch>) returns (files: seq<Batch>)
      requires NoDuplicates(spool.staged)
      modifies spool
      ensures var count := ChunkSize(old(spool.staged));
              && files == Readable(old(spool.staged)[..count], damaged)
              && spool.staged == files + old(spool.staged)[count..]
              && spool.rejected == old(spool.rejected) + Damaged(old(spool.staged)[..count], damaged)
    {
      hide Removed, RemovedSet, Readable, Damaged, NoDuplicates;
      ghost var staged, count := spool.staged, ChunkSize(spool.staged);
      var pending := spool.GetPending(BATCH_FILES);
      assert pending == staged[..count];
      files := [];
      RemovedSetAbsent(staged, {});
      NoneYet(pending, damaged);
      var i := 0;
      while i < |pending|
        invariant 0 <= i <= |pending|
        invariant files + Readable(pending[i..], damaged) == Readable(pending, damaged)
        invariant spool.staged == RemovedSet(staged, Damaged(pending[..i], damaged))
        invariant spool.rejected == old(spool.rejected) + Damaged(pending[..i], damaged)
      {
        OneFurther(pending, i, damaged);
        if pending[i] in damaged {
          RemoveOneMore(staged, Damaged(pending[..i], damaged), pending[i]);
          spool.Reject(pending[i]);
        } else {
          files := files + [pending[i]];
        }
        i := i + 1;
      }
      assert pending[..i] == pending;
      NoneLeft(pending, damaged);
      PrefixWithoutDamaged(staged, count, damaged);
    }

    /** Inserts the files' rows in one statement, then deletes the files: the rows added are exactly those of
        the files no row of the table came from, and exactly the files go. */
    method Load(files: seq<Batch>) returns (added: nat)
      modifies this, spool
      ensures forall row :: row in table <==> row in old(table) || IsNew(old(table), files, row)
      ensures forall file :: file in spool.staged <==> file in old(spool.staged) && file !in files
      ensures table == old(table) + Incoming(old(table), files) && added == |Incoming(old(table), files)|
      ensures spool.staged == RemovedAll(old(spool.staged), files) && spool.rejected == old(spool.rejected)
    {
      var incoming := Incoming(table, files);
      forall row ensures row in incoming <==> IsNew(table, files, row) {
        IncomingHas(table, files, row);
      }
      forall file ensures file in RemovedAll(spool.staged, files) <==> file in spool.staged && file !in files {
        RemovedAllHas(spool.staged, files, file);
      }
      table := table + incoming;
      spool.Delete(files);
      added := |incoming|;
    }

    /** One scheduled run for the table; nothing is staged meanwhile and no load fails. */
    method LoadPending(damaged: set<Batch>) returns (added: nat)
      requires NoDuplicates(spool.staged)
      modifies this, spool
      ensures spool.staged == LeftStaged(old(spool.staged), damaged)
      ensures table == LoadedTable(old(table), old(spool.staged), damaged)
      ensures |table| == |old(table)| + added
    {
      added := 0;
      var full := true;
      while full
        invariant NoDuplicates(spool.staged)
        invariant |table| == |old(table)| + added
        invariant full ==> LeftStaged(spool.staged, damaged) == LeftStaged(old(spool.staged), damaged)
        invariant full ==>
                    (LoadedTable(table, spool.staged, damaged) ==
                     LoadedTable(old(table), old(spool.staged), damaged))
        invariant !full ==> spool.staged == LeftStaged(old(spool.staged), damaged)
        invariant !full ==> table == LoadedTable(old(table), old(spool.staged), damaged)
        decreases full, |spool.staged|
      {
        ghost var staged, count := spool.staged, ChunkSize(spool.staged);
        var files := GetLoadable(damaged);
        ReadableIsAll(staged[..count], damaged);
        ReadableOnce(staged[..count], damaged);
        KeptOnce(staged, count, damaged);
        RemovedPrefix(spool.staged, |files|);
        assert spool.staged[..|files|] == files && spool.staged[|files|..] == staged[count..];
        if files == [] {
          assert RemovedAll(spool.staged, files) == spool.staged;
          break;
        }
        var more := Load(files);
        added := added + more;
        full := |files| >= BATCH_FILES;
      }
    }
  }

  lemma KeptOnce(staged: seq<Batch>, count: nat, damaged: set<Batch>)
    requires NoDuplicates(staged) && count <= |staged|
    ensures NoDuplicates(Readable(staged[..count], damaged) + staged[count..])
  {
    ReadableOnce(staged[..count], damaged);
    forall file | file in Readable(staged[..count], damaged) ensures file !in staged[count..] {
      ReadableHas(staged[..count], damaged, file);
    }
    Joined(Readable(staged[..count], damaged), staged[count..]);
  }

  /** Every damaged file is among the last chunk's. */
  predicate DamageIsLast(staged: seq<Batch>, damaged: set<Batch>) {
    forall i | 0 <= i < |staged| && staged[i] in damaged :: |staged| <= (i / 200 + 1) * 200
  }

  lemma ChunkOfLater(i: nat)
    requires i >= BATCH_FILES
    ensures (i - BATCH_FILES) / BATCH_FILES == i / BATCH_FILES - 1
  {
  }

  /** A backlog drains in one run if and only if no damaged file lies in a chunk with more files
      behind it: such a chunk comes out short, which reads as the last one. */
  lemma {:induction false} DrainsInOneRun(staged: seq<Batch>, damaged: set<Batch>)
    ensures LeftStaged(staged, damaged) == [] <==> DamageIsLast(staged, damaged)
    decreases |staged|
  {
    var count := ChunkSize(staged);
    var chunk := staged[..count];
    ReadableIsAll(chunk, damaged);
    if count < BATCH_FILES || |staged| == BATCH_FILES {
      if |staged| == BATCH_FILES {
        assert staged[count..] == [];
      }
    } else if |Readable(chunk, damaged)| < BATCH_FILES {
      var i :| 0 <= i < count && chunk[i] in damaged;
      assert staged[i] in damaged && i / BATCH_FILES == 0;
    } else {
      var rest := staged[count..];
      DrainsInOneRun(rest, damaged);
      if DamageIsLast(staged, damaged) {
        forall i | 0 <= i < |rest| && rest[i] in damaged ensures |rest| <= (i / BATCH_FILES + 1) * BATCH_FILES {
          assert staged[i + count] in damaged;
          ChunkOfLater(i + count);
        }
      }
      if DamageIsLast(rest, damaged) {
        assert forall i | 0 <= i < count :: staged[i] == chunk[i] && chunk[i] !in damaged;
        forall i | 0 <= i < |staged| && staged[i] in damaged ensures |staged| <= (i / BATCH_FILES + 1) * BATCH_FILES {
          assert rest[i - count] in damaged;
          ChunkOfLater(i);
        }
      }
    }
  }
}
