/**
  The reconciliation and batch-buffer state machine of the importer, as
  functions of the state before each step and the store's oracle. The methods
  of the Pipeline module are proved to compute exactly these functions; the
  lemmas below state what the importer promises about them.
*/
module Batching {
  import opened Records
  import opened Events
  import opened Store

  /** Records buffered before a bulk insert is attempted. */
  const BatchSize: nat := 100

  /**
    Everything a run has changed so far: the buffer of records awaiting
    `InsertMany`, the two logs, and the requests the store has received.
  */
  datatype State = State(
    records: seq<Record>,
    errors: seq<ErrorEvent>,
    successes: seq<SuccessEvent>,
    updates: seq<Record>,
    batches: seq<seq<Record>>)

  function Initial(): State {
    State([], [], [], [], [])
  }

  /** One result of the CSV reader: a row, or a read error other than end of input. */
  datatype ReadResult = Row(fields: seq<string>) | ReadError

  /** Where a run stands: still going, or stopped by an index-out-of-range panic. */
  datatype Progress = Running(state: State) | Crashed(state: State)

  /** The decision rule: a new document was created, or an existing one changed. */
  predicate Applied(matched: nat, modified: nat) {
    matched == 0 || modified > 0
  }

  /** An upsert reply that sends the record to the buffer. */
  predicate Unchanged(reply: UpsertReply) {
    reply.UpsertResult? && !Applied(reply.matched, reply.modified)
  }

  /** The "Inserted" success lines for `rs`, one per record, in order. */
  function InsertedLines(rs: seq<Record>): (lines: seq<SuccessEvent>)
    ensures |lines| == |rs|
    ensures forall i :: 0 <= i < |rs| ==> lines[i] == Inserted(rs[i].userID)
  {
    if rs == [] then [] else [Inserted(rs[0].userID)] + InsertedLines(rs[1..])
  }

  /** The upsert and the decision on its reply. */
  function Decide(o: Oracle, s: State, rec: Record): State {
    var t := s.(updates := s.updates + [rec]);
    match o.upsert(|s.updates|)
    case UpsertError => t.(errors := t.errors + [UpsertFailed(rec.userID)])
    case UpsertResult(matched, modified) =>
      if Applied(matched, modified) then t.(successes := t.successes + [Upserted(rec.userID)])
      else t.(records := t.records + [rec])
  }

  /**
    The batch check: a full buffer is bulk-inserted; on success it is logged
    and emptied, on failure it stays and the error is returned (`true`).
  */
  function CheckBatch(o: Oracle, s: State): (State, bool) {
    if |s.records| >= BatchSize then
      var t := s.(batches := s.batches + [s.records]);
      match o.insert(|s.batches|)
      case InsertError => (t, true)
      case InsertOk => (t.(successes := t.successes + InsertedLines(t.records), records := []), false)
    else
      (s, false)
  }

  /** `findAndInsert`: the batch check is skipped when the upsert itself failed. */
  function FindAndInsert(o: Oracle, s: State, rec: Record): (State, bool) {
    var t := Decide(o, s, rec);
    if o.upsert(|s.updates|).UpsertError? then (t, false) else CheckBatch(o, t)
  }

  /** One pass of the loop in `main`. */
  function ProcessRow(o: Oracle, s: State, r: ReadResult): Progress {
    match r
    case ReadError => Running(s.(errors := s.errors + [ReadFailed]))
    case Row(line) =>
      match ToRecord(line)
      case IndexOutOfRange => Crashed(s)
      case Rejected(e) => Running(s.(errors := s.errors + [e]))
      case Built(rec) =>
        var (t, failed) := FindAndInsert(o, s, rec);
        Running(if failed then t.(successes := t.successes + InsertedLines(t.records)) else t)
  }

  function ProcessRows(o: Oracle, s: State, rows: seq<ReadResult>): Progress
    decreases |rows|
  {
    if rows == [] then Running(s)
    else match ProcessRow(o, s, rows[0])
      case Crashed(t) => Crashed(t)
      case Running(t) => ProcessRows(o, t, rows[1..])
  }

  /** The end-of-input flush: the buffer is logged as inserted whatever `InsertMany` answered. */
  function FlushRemaining(o: Oracle, s: State): State {
    if |s.records| > 0 then
      var t := s.(batches := s.batches + [s.records]);
      var t' := if o.insert(|s.batches|).InsertError? then t.(errors := t.errors + [InsertRemainingFailed]) else t;
      t'.(successes := t'.successes + InsertedLines(s.records))
    else
      s
  }

  /** The run after the header, from state `s`: every row, then the final flush unless a row panicked. */
  function Run(o: Oracle, s: State, rows: seq<ReadResult>): Progress {
    match ProcessRows(o, s, rows)
    case Crashed(t) => Crashed(t)
    case Running(t) => Running(FlushRemaining(o, t))
  }
}
