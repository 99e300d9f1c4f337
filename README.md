# CSV-to-MongoDB reconciliation importer, modelled in Dafny

The importer reads `data.csv` row by row. For every row whose two timestamp
columns parse, it builds a `Record` (user id, dialog flag, created and updated
times) and upserts it by user id. When the store reports that it created a
document or changed one, the row is logged as "Upserted". When it matched a
document and changed nothing, the record is appended to an in-memory buffer.
Once the buffer holds `BatchSize` (100) records it is bulk-inserted with
`InsertMany`. At end of input a non-empty buffer is inserted once more.
Outcomes go to two append-only logs, `success.log` and `errors.log`.

The project has these modules:

- `Timestamps` (`timestamps.dfy`): the fixed layout `2006-01-02T15:04:05Z`.
  `Parse` accepts exactly the strings of that shape whose fields are in range,
  and `Format` writes an instant back in the layout.
- `Records` (`records.dfy`): the `Record` struct, and `ToRecord`, which turns
  one CSV row into a record, a rejected row, or an index-out-of-range panic.
- `Events` (`events.dfy`): the lines of the two logs as tagged events.
- `Store` (`store.dfy`): the collection as an oracle. The reply to the k-th
  `UpdateOne` and to the k-th `InsertMany` is a function of k, so every store
  behaviour, failures included, is one choice of oracle. The `Collection` class
  records every request it receives.
- `Batching` (`batching.dfy`): the reconciliation and buffer state machine as
  functions of the state before each step: `Decide`, `CheckBatch`,
  `FindAndInsert`, `ProcessRow`, `ProcessRows`, `FlushRemaining` and `Run`.
- `Properties` (`properties.dfy`): what the importer promises, as lemmas about
  those functions. There are per-call lemmas and run-level invariants proved by
  induction over the rows.
- `Pipeline` (`pipeline.dfy`): the `Importer` class. Its fields are the buffer
  and the two logs, which are updated in place as in the source. Its methods
  `FindAndInsert`, `ProcessRow`, `FlushRemaining` and `Run` each carry a
  postcondition equating the new state with the `Batching` function of the
  same name.

The record type `Records.Record` mirrors the `Record` struct (main.go:16-21),
and `Batching.BatchSize` is the constant `BatchSize` (main.go:23).

Points worth knowing about the code's behaviour:

- The code validates no key type. The user id is any string.
- The buffer can grow past `BatchSize`. When a threshold `InsertMany` fails,
  the buffer is neither cleared nor split. So the bound holds only while
  every bulk insert succeeds (`Properties.BufferStaysShort`).
- A failed threshold flush writes nothing to the error log. `main` drops the
  returned error and logs every buffered record as "Inserted" instead.
- When every upsert fails, or creates or changes a document, nothing is
  buffered and no `InsertMany` is made
  (`Properties.NoBatchesWhenEveryUpsertApplies`). A row whose user id is new
  to the store is of this kind (`MatchedCount == 0`), and is logged as
  "Upserted".
- A record is buffered only when its upsert matched a document and changed
  nothing. When every upsert of a run does that and every bulk insert
  succeeds, every valid row's record is sent to `InsertMany`
  (`Properties.RerunReinsertsEverything`). A rerun of identical input against
  a store holding exactly those documents, with no repeated user id and no
  failing upsert, is such a run.
- Repeated user ids are buffered too. The upsert filters on `user_id` alone
  (main.go:118). So a second row with the same user id and the same fields
  matches the document the first row wrote and changes nothing. That record
  is buffered, and a later `InsertMany` writes a second document for the
  same user. This model's store replies come from the oracle, so the model
  shows this as the reply `matched > 0, modified == 0` queuing the record
  (`Properties.DecisionRule`). It does not model the store's documents.
- The success log can claim "Inserted" for records that no successful
  `InsertMany` carried. This happens after a failed threshold flush
  (`Properties.FailedFlushReportedAsInserted`) and after a failed final flush
  (`Properties.FlushRemainingLogsAll`). A kept buffer is sent again by the next
  call that gets past its upsert (`Properties.KeptBufferResent`). That resend
  logs the same records as "Inserted" a second time whether it succeeds or fails. If the failed ordered
  `InsertMany` had already written a prefix of the batch, the resend inserts
  that prefix twice.

## Model

| member | source | states |
|---|---|---|
| Timestamps.Parse | main.go:72-81 | a timestamp parses exactly when it has the layout's shape and its fields are in range (month 1..12, day within the month with Gregorian leap years, hour < 24, minute and second < 60); a parsed value is always a valid instant |
| Timestamps.ParseFormat | main.go:72-81 | every valid instant, written in the layout, parses back to itself |
| Timestamps.FormatParse | main.go:72-81 | every string that parses is given back exactly by formatting the parsed instant, so the parse loses nothing |
| Records.ToRecord | main.go:72-88 | a row builds a record iff it has columns 3 and 4 and both parse; the record holds column 1 as user id, column 2 as dialog flag and the two parsed times (which format back to columns 3 and 4); otherwise the first failing column, 3 before 4, rejects the row with an error naming columns 1 and 0; a row too short for the column read next panics |
| Records.IdColumnIgnored | main.go:72-88 | column 0 never reaches a built record: changing it leaves the conversion unchanged |
| Batching.InsertedLines | main.go:145-151 | one "Inserted" line per buffered record, carrying its user id, in buffer order |
| Batching.Decide | main.go:128-138 | no contract of its own: the upsert request and the decision on its reply; its promises are stated by `Properties.UpsertErrorKeepsBuffer`, `Properties.DecisionRule` and `Properties.FindAndInsertEffect` |
| Batching.CheckBatch | main.go:140-153 | no contract of its own: the threshold flush; its promises are stated by `Properties.FullBufferFlushed`, `Properties.FullBufferKeptOnError` and `Properties.ShortBufferKept` |
| Batching.FindAndInsert | main.go:117-156 | no contract of its own: the upsert, then the threshold flush unless the upsert failed; its promises are stated by `Properties.UpsertErrorKeepsBuffer`, `Properties.KeptBufferResent` and `Properties.FindAndInsertEffect`, and `Pipeline.Importer.FindAndInsert` is proved equal to it |
| Batching.ProcessRow | main.go:63-99 | no contract of its own: one pass of the row loop; its promises are stated by `Properties.RejectedRowOnlyLogs`, `Properties.ReadErrorOnlyLogs`, `Properties.FailedFlushReportedAsInserted`, `Properties.RowEffect`, `Properties.RowGrowsBufferByAtMostOne`, `Properties.RowKeepsBufferShort`, `Properties.RowKeepsBufferQueued` and `Properties.RowKeepsAccounted` |
| Batching.ProcessRows | main.go:62-100 | no contract of its own: the row loop over the whole input; its promises are stated by `Properties.BufferStaysShort`, `Properties.CrashIffShortRow`, `Properties.UpdatesAreBuiltRecords`, `Properties.BufferIsQueuedSuffix`, `Properties.RowsKeepAccounted` and `Properties.NoBatchesWhenEveryUpsertApplies` |
| Batching.FlushRemaining | main.go:102-114 | no contract of its own: the end-of-input flush; its promises are stated by `Properties.FlushRemainingLogsAll` |
| Batching.Run | main.go:62-114 | no contract of its own: the row loop followed by the final flush unless a row panicked; its promises are stated by `Properties.EveryQueuedRecordInsertedOnce` and `Properties.RerunReinsertsEverything`, and `Pipeline.Importer.Run` and `Pipeline.Import` are proved equal to it |
| Store.Collection.constructor | main.go:40-47 | a collection starts with no requests recorded |
| Store.Collection.UpdateOne | main.go:118-128 | the reply is the oracle's answer to the next upsert; the record is added to the upsert requests and nothing else changes |
| Store.Collection.InsertMany | main.go:141-143 | the reply is the oracle's answer to the next bulk insert; the whole argument is recorded as one batch and nothing else changes |
| Properties.RejectedRowOnlyLogs | main.go:72-81 | a row whose created_on or updated_on column does not parse adds exactly one error line (naming which column, with columns 1 and 0), makes no store call, leaves the buffer and the success log as they were, and the run continues |
| Properties.ReadErrorOnlyLogs | main.go:63-70 | a CSV read error other than end of input adds one error line and changes nothing else |
| Properties.UpsertErrorKeepsBuffer | main.go:128-132 | a failed upsert logs one error, returns no error, leaves the buffer exactly as it was and makes no bulk insert |
| Properties.DecisionRule | main.go:134-138 | after a counted reply, either `matched == 0 or modified > 0` and one "Upserted" line is logged with the buffer unchanged, or the record is appended at the end of the buffer, earlier entries kept, and nothing is logged |
| Properties.FullBufferFlushed | main.go:140-153 | a buffer of at least `BatchSize` records whose bulk insert succeeds is sent whole, logged as inserted in buffer order and emptied, and no error is returned |
| Properties.FullBufferKeptOnError | main.go:140-144 | a full buffer whose bulk insert fails is sent whole and kept, and the error is returned |
| Properties.ShortBufferKept | main.go:140 | below `BatchSize` the batch check makes no call and changes nothing |
| Properties.FailedFlushReportedAsInserted | main.go:90-99 | when the threshold bulk insert fails, `main` logs every buffered record as inserted, logs no error and keeps the buffer |
| Properties.KeptBufferResent | main.go:137-141 | a buffer left full by a failed flush is sent again, whole, as the prefix of the next call's bulk insert |
| Properties.FindAndInsertEffect | main.go:117-156 | one call makes exactly one upsert request; the buffer grows by the record exactly when the reply matched without modifying; it ends either emptied or as grown; an emptied non-empty buffer was first sent whole as one new batch; and a returned error leaves it as grown |
| Properties.RowEffect | main.go:62-100 | a row that does not build a record changes neither the buffer nor the store's requests, and stops the run only if it is too short for the column read next |
| Properties.RowGrowsBufferByAtMostOne | main.go:137-152 | at most one record joins the buffer per row, namely that row's record, unless a flush empties it |
| Properties.RowKeepsBufferShort | main.go:137-152 | while every bulk insert succeeds, a buffer below `BatchSize` stays below it after the row |
| Properties.BufferStaysShort | main.go:62-100 | while every bulk insert succeeds, a buffer below `BatchSize` stays below it after any sequence of rows |
| Properties.CrashIffShortRow | main.go:72-81 | the loop stops before end of input exactly when some row is too short for the timestamp column it reads next |
| Properties.UpdatesAreBuiltRecords | main.go:62-100 | with no short row, the run reaches end of input and the store receives one upsert per row that builds a record, in input order, and none for any other row |
| Properties.RowKeepsBufferQueued | main.go:134-152 | the buffer holds only records whose upsert matched without modifying, namely the latest such records in upsert order; one row keeps this |
| Properties.BufferIsQueuedSuffix | main.go:62-100 | the same buffer invariant holds after any sequence of rows |
| Properties.RowsKeepAccounted | main.go:62-100 | while every bulk insert succeeds, the batches sent so far followed by the buffer are exactly the queued records, each once and in order |
| Properties.EveryQueuedRecordInsertedOnce | main.go:62-114 | while every bulk insert succeeds, a completed run has sent every queued record to `InsertMany` exactly once and in order, so nothing is left unflushed at end of input |
| Properties.QueuedAllWhenNothingChanges | main.go:134-138 | when every upsert matches without modifying, every upserted record is queued |
| Properties.RerunReinsertsEverything | main.go:62-114 | against a store that already holds every record unchanged, a run whose bulk inserts succeed sends every valid row's record to `InsertMany` |
| Properties.NoBatchesWhenEveryUpsertApplies | main.go:62-100 | when every upsert fails or creates or changes a document, nothing is ever buffered and no bulk insert is made |
| Properties.FlushRemainingLogsAll | main.go:102-114 | at end of input a non-empty buffer gets exactly one more bulk insert with the whole buffer, and every buffered record is logged as inserted whether or not it failed; a failure adds one error line; an empty buffer makes no call |
| Pipeline.Importer.constructor | main.go:39 | a run starts with an empty buffer and no log lines |
| Pipeline.Importer.LogInserted | main.go:145-151 | the success log gains exactly `InsertedLines` of the given records, and nothing else changes |
| Pipeline.Importer.FindAndInsert | main.go:117-156 | the new buffer, logs and store requests, and the returned error, are exactly those of `Batching.FindAndInsert` |
| Pipeline.Importer.ProcessRow | main.go:63-99 | one pass of the loop produces exactly the state of `Batching.ProcessRow`, and reports a panic exactly when that function does |
| Pipeline.Importer.FlushRemaining | main.go:102-114 | the end-of-input flush produces exactly the state of `Batching.FlushRemaining` |
| Pipeline.Importer.Run | main.go:62-114 | the row loop and final flush produce exactly the state of `Batching.Run`, stopping at the first panicking row |
| Pipeline.Import | main.go:39-114 | a fresh run over a collection with the given replies ends in exactly the state `Batching.Run` gives from the empty state |

## Left out

- Opening and closing `errors.log`, `success.log` and `data.csv`, and reading the CSV header (main.go:26-36, 49-60), are file I/O. The overwritten `err` of the first `OpenFile` is a setup slip with no effect on the core.
- The MongoDB client options, `Connect`, `Disconnect`, the database and collection names and the contexts (main.go:38-47) are foreign calls. The store is only an oracle of replies.
- The contents of the collection are not modelled, nor is what a failed `InsertMany` wrote before failing. The matched and modified counts, and the success or failure of each call, come from the oracle. `MatchedCount` and `ModifiedCount` are `int64` in the driver and are naturals here, because the driver never reports negative counts.
- The CSV reader's internals (quoting, delimiters, the field-count check against the header) are library code. Rows arrive as field sequences or read errors, and end of input is the end of the sequence.
- Timestamps.Parse: Go's parser, given this layout, also accepts a one-digit hour and a fractional-seconds suffix such as `.5` after the seconds. This model rejects both, and accepts only the 20-character form.
- Log lines are tagged events. Their text, the `log.LstdFlags` time prefix and the underlying error messages are not modelled.
- The "Failed to assert type" branches (main.go:96, 111, 149) cannot happen here. The buffer has type `seq<Record>`, just as the source only ever appends `Record` values (main.go:137).
- An index-out-of-range panic ends the run on the spot. The model keeps the logs written so far and does not model the stack trace or the deferred closes.
- A read-compare-then-insert policy, comparing a stored `updated_on` with the row's `created_on`, does not appear in this code and is not modelled.
