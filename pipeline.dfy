/**
  The importer as the source runs it: the buffer and the two logs are fields
  updated in place, `findAndInsert` and the row loop of `main` are methods,
  and each method is proved to compute the Batching function of the same name.
*/
module Pipeline {
  import opened Records
  import opened Events
  import opened Store
  import opened Batching

  /** The state one run threads through its rows. */
  class Importer {
    const collection: Collection
    var records: seq<Record>             // the pending batch (`records` in `main`)
    var errorLog: seq<ErrorEvent>        // errors.log
    var successLog: seq<SuccessEvent>    // success.log

    constructor (collection: Collection)
      ensures this.collection == collection
      ensures records == [] && errorLog == [] && successLog == []
    {
      this.collection := collection;
      records := [];
      errorLog := [];
      successLog := [];
    }

    /** The run's state as the Batching functions see it. */
    function Snapshot(): State
      reads this, collection
    {
      State(records, errorLog, successLog, collection.updates, collection.batches)
    }

    /** Logs one "Inserted" line per record of `rs`, in order. */
    method LogInserted(rs: seq<Record>)
      modifies this
      ensures successLog == old(successLog) + InsertedLines(rs)
      ensures records == old(records) && errorLog == old(errorLog)
    {
      var i := 0;
      while i < |rs|
        invariant 0 <= i <= |rs|
        invariant successLog == old(successLog) + InsertedLines(rs[..i])
        invariant records == old(records) && errorLog == old(errorLog)
      {
        assert InsertedLines(rs[..i + 1]) == InsertedLines(rs[..i]) + [Inserted(rs[i].userID)];
        successLog := successLog + [Inserted(rs[i].userID)];
        i := i + 1;
      }
      assert rs[..i] == rs;
    }

    /**
      Upserts `record`, buffers it when the store matched a document without
      changing it, and bulk-inserts a full buffer. Returns `true` exactly when
      that bulk insert failed.
    */
    method FindAndInsert(record: Record) returns (failed: bool)
      modifies this, collection
      ensures (Snapshot(), failed) == Batching.FindAndInsert(collection.oracle, old(Snapshot()), record)
    {
      var reply := collection.UpdateOne(record);
      match reply {
        case UpsertError =>
          errorLog := errorLog + [UpsertFailed(record.userID)];
          return false;
        case UpsertResult(matched, modified) =>
          if matched == 0 || modified > 0 {
            successLog := successLog + [Upserted(record.userID)];
          } else {
            records := records + [record];
          }
      }
      if |records| >= BatchSize {
        var inserted := collection.InsertMany(records);
        if inserted.InsertError? {
          return true;
        }
        LogInserted(records);
        records := [];
      }
      return false;
    }

    /** One pass of the row loop. Returns `true` when the row makes the program panic. */
    method ProcessRow(row: ReadResult) returns (crashed: bool)
      modifies this, collection
      ensures var p := Batching.ProcessRow(collection.oracle, old(Snapshot()), row);
        crashed == p.Crashed? && Snapshot() == p.state
    {
      match row {
        case ReadError =>
          errorLog := errorLog + [ReadFailed];
          return false;
        case Row(line) =>
          match ToRecord(line) {
            case IndexOutOfRange =>
              return true;
            case Rejected(e) =>
              errorLog := errorLog + [e];
              return false;
            case Built(record) =>
              var failed := FindAndInsert(record);
              if failed {
                LogInserted(records);
              }
              return false;
          }
      }
    }

    /** The end-of-input flush. */
    method FlushRemaining()
      modifies this, collection
      ensures Snapshot() == Batching.FlushRemaining(collection.oracle, old(Snapshot()))
    {
      if |records| > 0 {
        var inserted := collection.InsertMany(records);
        if inserted.InsertError? {
          errorLog := errorLog + [InsertRemainingFailed];
        }
        LogInserted(records);
      }
    }

    /** Every row in order, then the final flush; a panicking row ends the run on the spot. */
    method Run(input: seq<ReadResult>) returns (crashed: bool)
      modifies this, collection
      ensures var p := Batching.Run(collection.oracle, old(Snapshot()), input);
        crashed == p.Crashed? && Snapshot() == p.state
    {
      var i := 0;
      while i < |input|
        invariant 0 <= i <= |input|
        invariant ProcessRows(collection.oracle, Snapshot(), input[i..]) ==
                  ProcessRows(collection.oracle, old(Snapshot()), input)
      {
        assert input[i..][1..] == input[i + 1..];
        crashed := ProcessRow(input[i]);
        if crashed {
          return;
        }
        i := i + 1;
      }
      FlushRemaining();
      crashed := false;
    }
  }

  /**
    `main` after setup: a fresh buffer and empty logs over a collection whose
    replies come from `oracle`. Returns whether a row panicked and the final
    state of buffer, logs and store requests.
  */
  method Import(oracle: Oracle, input: seq<ReadResult>) returns (crashed: bool, final: State)
    ensures (if crashed then Crashed(final) else Running(final)) == Batching.Run(oracle, Initial(), input)
  {
    var collection := new Collection(oracle);
    var importer := new Importer(collection);
    crashed := importer.Run(input);
    final := importer.Snapshot();
  }
}
