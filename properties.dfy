/**
  What the importer promises, stated about the functions of the Batching
  module: per call of `findAndInsert`, per row of the loop in `main`, for the
  final flush, and for whole runs.
*/
module Properties {
  import opened Timestamps
  import opened Records
  import opened Events
  import opened Store
  import opened Batching

  /* ---------- rows ---------- */

  /**
    A row whose `created_on` or `updated_on` column does not parse yields one
    error line naming the failing column's kind and columns 1 and 0, no store
    call and no change to the buffer; the run goes on.
  */
  lemma RejectedRowOnlyLogs(o: Oracle, s: State, line: seq<string>)
    requires |line| >= 4
    requires Parse(line[3]).None? || (|line| >= 5 && Parse(line[4]).None?)
    ensures var p := ProcessRow(o, s, Row(line));
      p.Running? &&
      p.state.records == s.records && p.state.successes == s.successes &&
      p.state.updates == s.updates && p.state.batches == s.batches &&
      p.state.errors == s.errors +
        [if Parse(line[3]).None? then InvalidCreatedOn(line[1], line[0]) else InvalidUpdatedOn(line[1], line[0])]
  {
  }

  /** A CSV read error is logged and the row is skipped. */
  lemma ReadErrorOnlyLogs(o: Oracle, s: State)
    ensures ProcessRow(o, s, ReadError) == Running(s.(errors := s.errors + [ReadFailed]))
  {
  }

  /* ---------- findAndInsert ---------- */

  /** A failed upsert logs one error, returns no error and never reaches the batch check. */
  lemma UpsertErrorKeepsBuffer(o: Oracle, s: State, rec: Record)
    requires o.upsert(|s.updates|).UpsertError?
    ensures FindAndInsert(o, s, rec) ==
      (s.(updates := s.updates + [rec], errors := s.errors + [UpsertFailed(rec.userID)]), false)
  {
  }

  /**
    On a reply with counts, exactly one of two things happens: when a document
    was created or changed one "Upserted" line is logged and the buffer is
    untouched; otherwise the record is appended at the end of the buffer and
    nothing is logged.
  */
  lemma DecisionRule(o: Oracle, s: State, rec: Record, matched: nat, modified: nat)
    requires o.upsert(|s.updates|) == UpsertResult(matched, modified)
    ensures var t := Decide(o, s, rec);
      t.updates == s.updates + [rec] && t.errors == s.errors && t.batches == s.batches &&
      (matched == 0 || modified > 0 ==> t.successes == s.successes + [Upserted(rec.userID)] && t.records == s.records) &&
      (matched > 0 && modified == 0 ==> t.successes == s.successes && t.records == s.records + [rec])
  {
  }

  /**
    A full buffer whose `InsertMany` succeeds is sent whole, logged as
    inserted record by record in buffer order, and emptied; no error is returned.
  */
  lemma FullBufferFlushed(o: Oracle, s: State)
    requires |s.records| >= BatchSize && o.insert(|s.batches|) == InsertOk
    ensures var (t, failed) := CheckBatch(o, s);
      !failed && t.records == [] && t.batches == s.batches + [s.records] &&
      t.successes == s.successes + InsertedLines(s.records) &&
      t.errors == s.errors && t.updates == s.updates
  {
  }

  /** A full buffer whose `InsertMany` fails is sent whole, kept, and the error is returned. */
  lemma FullBufferKeptOnError(o: Oracle, s: State)
    requires |s.records| >= BatchSize && o.insert(|s.batches|) == InsertError
    ensures CheckBatch(o, s) == (s.(batches := s.batches + [s.records]), true)
  {
  }

  /** Below the threshold the batch check does nothing. */
  lemma ShortBufferKept(o: Oracle, s: State)
    requires |s.records| < BatchSize
    ensures CheckBatch(o, s) == (s, false)
  {
  }

  /* ---------- the loop in main ---------- */

  /**
    When the threshold `InsertMany` fails, `main` logs every buffered record as
    inserted, logs no error, and keeps the buffer.
  */
  lemma FailedFlushReportedAsInserted(o: Oracle, s: State, line: seq<string>)
    requires ToRecord(line).Built?
    requires var u := Decide(o, s, ToRecord(line).record);
      o.upsert(|s.updates|).UpsertResult? && |u.records| >= BatchSize && o.insert(|u.batches|) == InsertError
    ensures var u := Decide(o, s, ToRecord(line).record);
      ProcessRow(o, s, Row(line)) ==
        Running(u.(batches := u.batches + [u.records], successes := u.successes + InsertedLines(u.records)))
  {
  }

  /** A buffer kept after a failed flush is sent again, whole, by the next call that gets past its upsert. */
  lemma KeptBufferResent(o: Oracle, s: State, rec: Record)
    requires |s.records| >= BatchSize && o.upsert(|s.updates|).UpsertResult?
    ensures var t := FindAndInsert(o, s, rec).0;
      |t.batches| == |s.batches| + 1 && s.records <= t.batches[|s.batches|]
  {
  }

  /**
    What one call does to the buffer and to the upsert requests: one request
    for the record, and the buffer either emptied by a successful flush or
    grown by the record exactly when the reply queued it.
  */
  lemma FindAndInsertEffect(o: Oracle, s: State, rec: Record)
    ensures var (t, failed) := FindAndInsert(o, s, rec);
      t.updates == s.updates + [rec] &&
      Decide(o, s, rec).records == s.records + (if Unchanged(o.upsert(|s.updates|)) then [rec] else []) &&
      (t.records == [] || t.records == Decide(o, s, rec).records) &&
      (t.records == [] && Decide(o, s, rec).records != [] ==>
        |t.batches| == |s.batches| + 1 && t.batches[|s.batches|] == Decide(o, s, rec).records) &&
      (failed ==> t.records == Decide(o, s, rec).records)
  {
  }

  /** A row that does not convert to a record changes neither the buffer nor the store's requests. */
  lemma RowEffect(o: Oracle, s: State, r: ReadResult)
    ensures var p := ProcessRow(o, s, r);
      if r.Row? && ToRecord(r.fields).Built? then
        var t := FindAndInsert(o, s, ToRecord(r.fields).record).0;
        p.Running? && p.state.updates == t.updates && p.state.records == t.records && p.state.batches == t.batches
      else
        p.state.updates == s.updates && p.state.records == s.records && p.state.batches == s.batches &&
        (p.Running? <==> !(r.Row? && ToRecord(r.fields).IndexOutOfRange?))
  {
  }

  /** At most one record joins the buffer per row, and a successful flush empties it. */
  lemma RowGrowsBufferByAtMostOne(o: Oracle, s: State, r: ReadResult)
    ensures var t := ProcessRow(o, s, r).state;
      t.records == [] || t.records == s.records ||
      (r.Row? && ToRecord(r.fields).Built? && t.records == s.records + [ToRecord(r.fields).record])
  {
  }

  /* ---------- the final flush ---------- */

  /**
    At end of input a non-empty buffer is sent in one more `InsertMany` and
    logged as inserted whether or not that call failed, a failure adding one
    error line; an empty buffer causes no call.
  */
  lemma FlushRemainingLogsAll(o: Oracle, s: State)
    ensures var t := FlushRemaining(o, s);
      t.records == s.records && t.updates == s.updates &&
      t.successes == s.successes + InsertedLines(s.records) &&
      t.batches == s.batches + (if |s.records| > 0 then [s.records] else []) &&
      t.errors == s.errors +
        (if |s.records| > 0 && o.insert(|s.batches|).InsertError? then [InsertRemainingFailed] else [])
  {
  }

  /* ---------- whole runs ---------- */

  /** Every call to `InsertMany` succeeds. */
  ghost predicate InsertsSucceed(o: Oracle) {
    forall k :: o.insert(k) == InsertOk
  }

  /**
    Buffer bound: while every bulk insert succeeds, a buffer shorter than
    `BatchSize` stays shorter after the row.
  */
  lemma RowKeepsBufferShort(o: Oracle, s: State, r: ReadResult)
    requires InsertsSucceed(o) && |s.records| < BatchSize
    ensures |ProcessRow(o, s, r).state.records| < BatchSize
  {
    RowGrowsBufferByAtMostOne(o, s, r);
    if r.Row? && ToRecord(r.fields).Built? {
      var rec := ToRecord(r.fields).record;
      var u := Decide(o, s, rec);
      if o.upsert(|s.updates|).UpsertResult? && |u.records| >= BatchSize {
        FullBufferFlushed(o, u);
      }
    }
  }

  lemma {:induction false} BufferStaysShort(o: Oracle, s: State, rows: seq<ReadResult>)
    requires InsertsSucceed(o) && |s.records| < BatchSize
    ensures |ProcessRows(o, s, rows).state.records| < BatchSize
    decreases |rows|
  {
    if rows != [] {
      RowKeepsBufferShort(o, s, rows[0]);
      var p := ProcessRow(o, s, rows[0]);
      if p.Running? {
        BufferStaysShort(o, p.state, rows[1..]);
      }
    }
  }

  /** No row of `rows` is too short for the column the loop reads next. */
  predicate NoShortRow(rows: seq<ReadResult>) {
    forall i :: 0 <= i < |rows| && rows[i].Row? ==> !ToRecord(rows[i].fields).IndexOutOfRange?
  }

  lemma NoShortRowTail(rows: seq<ReadResult>)
    requires rows != [] && NoShortRow(rows)
    ensures NoShortRow(rows[1..]) && !(rows[0].Row? && ToRecord(rows[0].fields).IndexOutOfRange?)
  {
    forall i | 0 <= i < |rows[1..]| && rows[1..][i].Row?
      ensures !ToRecord(rows[1..][i].fields).IndexOutOfRange?
    {
      assert rows[1..][i] == rows[i + 1];
    }
  }

  lemma AppendAssociative(a: seq<Record>, b: seq<Record>, c: seq<Record>)
    ensures a + b + c == a + (b + c)
  {
  }

  /** The records the rows convert to, in input order. */
  function BuiltRecords(rows: seq<ReadResult>): seq<Record> {
    if rows == [] then []
    else
      (if rows[0].Row? && ToRecord(rows[0].fields).Built? then [ToRecord(rows[0].fields).record] else []) +
      BuiltRecords(rows[1..])
  }

  /** The run stops early exactly when some row is too short: an index-out-of-range panic. */
  lemma {:induction false} CrashIffShortRow(o: Oracle, s: State, rows: seq<ReadResult>)
    ensures ProcessRows(o, s, rows).Crashed? <==> !NoShortRow(rows)
    decreases |rows|
  {
    if rows != [] {
      var p := ProcessRow(o, s, rows[0]);
      CrashIffShortRow(o, p.state, rows[1..]);
      if p.Running? {
        assert NoShortRow(rows) <==> NoShortRow(rows[1..]) by {
          if NoShortRow(rows[1..]) {
            forall i | 0 <= i < |rows| && rows[i].Row?
              ensures !ToRecord(rows[i].fields).IndexOutOfRange?
            {
              if i > 0 { assert rows[1..][i - 1] == rows[i]; }
            }
          }
          if NoShortRow(rows) {
            forall i | 0 <= i < |rows[1..]| && rows[1..][i].Row?
              ensures !ToRecord(rows[1..][i].fields).IndexOutOfRange?
            {
              assert rows[1..][i] == rows[i + 1];
            }
          }
        }
      } else {
        assert rows[0].Row? && ToRecord(rows[0].fields).IndexOutOfRange?;
      }
    }
  }

  /**
    Store calls follow the valid rows: one `UpdateOne` per row that converts
    to a record, in input order, and none for any other row.
  */
  lemma {:induction false} UpdatesAreBuiltRecords(o: Oracle, s: State, rows: seq<ReadResult>)
    requires NoShortRow(rows)
    ensures ProcessRows(o, s, rows).Running?
    ensures ProcessRows(o, s, rows).state.updates == s.updates + BuiltRecords(rows)
    decreases |rows|
  {
    if rows != [] {
      NoShortRowTail(rows);
      RowEffect(o, s, rows[0]);
      var p := ProcessRow(o, s, rows[0]);
      assert p.Running?;
      assert ProcessRows(o, s, rows) == ProcessRows(o, p.state, rows[1..]);
      var built := rows[0].Row? && ToRecord(rows[0].fields).Built?;
      var head := if built then [ToRecord(rows[0].fields).record] else [];
      if built {
        FindAndInsertEffect(o, s, ToRecord(rows[0].fields).record);
      }
      assert p.state.updates == s.updates + head;
      assert BuiltRecords(rows) == head + BuiltRecords(rows[1..]);
      UpdatesAreBuiltRecords(o, p.state, rows[1..]);
      var rest := ProcessRows(o, p.state, rows[1..]).state.updates;
      assert rest == s.updates + head + BuiltRecords(rows[1..]);
      AppendAssociative(s.updates, head, BuiltRecords(rows[1..]));
    }
  }

  /** The records sent to `UpdateOne` (given in call order) whose reply queued them. */
  function Queued(o: Oracle, us: seq<Record>): (q: seq<Record>)
    ensures |q| <= |us|
  {
    if us == [] then []
    else Queued(o, us[..|us| - 1]) + (if Unchanged(o.upsert(|us| - 1)) then [us[|us| - 1]] else [])
  }

  predicate IsSuffix(a: seq<Record>, b: seq<Record>) {
    |a| <= |b| && a == b[|b| - |a|..]
  }

  lemma QueuedAppend(o: Oracle, us: seq<Record>, rec: Record)
    ensures Queued(o, us + [rec]) == Queued(o, us) + (if Unchanged(o.upsert(|us|)) then [rec] else [])
  {
    assert (us + [rec])[..|us|] == us;
  }

  /**
    Only records are buffered, and only those whose upsert matched a document
    without changing it: the buffer is always the latest such records, in
    the order their rows came.
  */
  lemma RowKeepsBufferQueued(o: Oracle, s: State, r: ReadResult)
    requires IsSuffix(s.records, Queued(o, s.updates))
    ensures var t := ProcessRow(o, s, r).state; IsSuffix(t.records, Queued(o, t.updates))
  {
    RowEffect(o, s, r);
    var t := ProcessRow(o, s, r).state;
    if r.Row? && ToRecord(r.fields).Built? {
      var rec := ToRecord(r.fields).record;
      var extra := if Unchanged(o.upsert(|s.updates|)) then [rec] else [];
      QueuedAppend(o, s.updates, rec);
      FindAndInsertEffect(o, s, rec);
      assert t.updates == s.updates + [rec];
      SuffixAppend(s.records, Queued(o, s.updates), extra);
      assert IsSuffix(Decide(o, s, rec).records, Queued(o, t.updates));
    }
  }

  lemma SuffixAppend(a: seq<Record>, b: seq<Record>, e: seq<Record>)
    requires IsSuffix(a, b)
    ensures IsSuffix(a + e, b + e)
  {
    assert (b + e)[|b + e| - |a + e|..] == b[|b| - |a|..] + e;
  }

  lemma {:induction false} BufferIsQueuedSuffix(o: Oracle, s: State, rows: seq<ReadResult>)
    requires IsSuffix(s.records, Queued(o, s.updates))
    ensures var t := ProcessRows(o, s, rows).state; IsSuffix(t.records, Queued(o, t.updates))
    decreases |rows|
  {
    if rows != [] {
      RowKeepsBufferQueued(o, s, rows[0]);
      var p := ProcessRow(o, s, rows[0]);
      if p.Running? {
        BufferIsQueuedSuffix(o, p.state, rows[1..]);
      }
    }
  }

  /** All records of all bulk inserts, in call order. */
  function Flatten(bs: seq<seq<Record>>): seq<Record> {
    if bs == [] then [] else Flatten(bs[..|bs| - 1]) + bs[|bs| - 1]
  }

  lemma FlattenAppend(bs: seq<seq<Record>>, b: seq<Record>)
    ensures Flatten(bs + [b]) == Flatten(bs) + b
  {
    assert (bs + [b])[..|bs|] == bs;
  }

  /** While every bulk insert succeeds, queued records are either sent in a batch or still buffered, once each. */
  predicate Accounted(o: Oracle, s: State) {
    Flatten(s.batches) + s.records == Queued(o, s.updates)
  }

  lemma RowKeepsAccounted(o: Oracle, s: State, r: ReadResult)
    requires InsertsSucceed(o) && Accounted(o, s)
    ensures Accounted(o, ProcessRow(o, s, r).state)
  {
    if r.Row? && ToRecord(r.fields).Built? {
      var rec := ToRecord(r.fields).record;
      QueuedAppend(o, s.updates, rec);
      var u := Decide(o, s, rec);
      assert Accounted(o, u);
      if o.upsert(|s.updates|).UpsertResult? && |u.records| >= BatchSize {
        FlattenAppend(u.batches, u.records);
      }
    }
  }

  lemma {:induction false} RowsKeepAccounted(o: Oracle, s: State, rows: seq<ReadResult>)
    requires InsertsSucceed(o) && Accounted(o, s)
    ensures Accounted(o, ProcessRows(o, s, rows).state)
    decreases |rows|
  {
    if rows != [] {
      RowKeepsAccounted(o, s, rows[0]);
      var p := ProcessRow(o, s, rows[0]);
      if p.Running? {
        RowsKeepAccounted(o, p.state, rows[1..]);
      }
    }
  }

  /**
    End of input leaves nothing unsent: when every bulk insert succeeds, the
    batches of a completed run hold every queued record exactly once, in order.
  */
  lemma EveryQueuedRecordInsertedOnce(o: Oracle, rows: seq<ReadResult>)
    requires InsertsSucceed(o)
    ensures Run(o, Initial(), rows).Running? ==>
      var t := Run(o, Initial(), rows).state; Flatten(t.batches) == Queued(o, t.updates)
  {
    RowsKeepAccounted(o, Initial(), rows);
    var p := ProcessRows(o, Initial(), rows);
    if p.Running? && |p.state.records| > 0 {
      FlattenAppend(p.state.batches, p.state.records);
    }
  }

  /** When every reply matches without modifying, every record sent to `UpdateOne` is queued. */
  lemma {:induction false} QueuedAllWhenNothingChanges(o: Oracle, us: seq<Record>)
    requires forall k :: 0 <= k < |us| ==> Unchanged(o.upsert(k))
    ensures Queued(o, us) == us
    decreases |us|
  {
    if us != [] {
      QueuedAllWhenNothingChanges(o, us[..|us| - 1]);
      assert us == us[..|us| - 1] + [us[|us| - 1]];
    }
  }

  /**
    Against a store that already holds every record unchanged (every upsert
    matches and modifies nothing), a run whose bulk inserts succeed sends every
    valid row's record to `InsertMany`.
  */
  lemma RerunReinsertsEverything(o: Oracle, rows: seq<ReadResult>)
    requires InsertsSucceed(o) && NoShortRow(rows)
    requires forall k :: Unchanged(o.upsert(k))
    ensures Run(o, Initial(), rows).Running?
    ensures Flatten(Run(o, Initial(), rows).state.batches) == BuiltRecords(rows)
  {
    UpdatesAreBuiltRecords(o, Initial(), rows);
    EveryQueuedRecordInsertedOnce(o, rows);
    var t := Run(o, Initial(), rows).state;
    QueuedAllWhenNothingChanges(o, t.updates);
  }

  /**
    Against a store where every upsert creates or changes a document, nothing
    is ever buffered or bulk-inserted.
  */
  lemma {:induction false} NoBatchesWhenEveryUpsertApplies(o: Oracle, s: State, rows: seq<ReadResult>)
    requires forall k :: o.upsert(k).UpsertError? || Applied(o.upsert(k).matched, o.upsert(k).modified)
    requires s.records == []
    ensures ProcessRows(o, s, rows).state.records == []
    ensures ProcessRows(o, s, rows).state.batches == s.batches
    decreases |rows|
  {
    if rows != [] {
      var p := ProcessRow(o, s, rows[0]);
      if p.Running? {
        NoBatchesWhenEveryUpsertApplies(o, p.state, rows[1..]);
      }
    }
  }
}
