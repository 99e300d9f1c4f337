/** The record the importer writes, and the conversion of one CSV row into it. */
module Records {
  import opened Wrappers
  import opened Timestamps
  import opened Events

  /** One document of the collection: the user, the dialog flag and the two timestamps. */
  datatype Record = Record(userID: string, dialogDisplayed: string, createdOn: Time, updatedOn: Time)

  /** What the loop body does with one row before any store call. */
  datatype RowOutcome =
    | Built(record: Record)
    | Rejected(error: ErrorEvent)
    | IndexOutOfRange          // the row is too short for the column read next: Go panics

  /**
    Converts one CSV row. Column 3 is parsed first, then column 4; the first one
    that fails rejects the row with an error naming columns 1 and 0. Column 0
    is read only for that message.
  */
  function ToRecord(line: seq<string>): (r: RowOutcome)
    ensures r.Built? <==> |line| >= 5 && Parse(line[3]).Some? && Parse(line[4]).Some?
    ensures r.Built? ==>
      r.record.userID == line[1] && r.record.dialogDisplayed == line[2] &&
      Parse(line[3]) == Some(r.record.createdOn) && Parse(line[4]) == Some(r.record.updatedOn)
    ensures r.Built? ==>
      Format(r.record.createdOn) == line[3] && Format(r.record.updatedOn) == line[4]
    ensures r.Rejected? ==>
      |line| >= 4 &&
      r.error == (if Parse(line[3]).None? then InvalidCreatedOn(line[1], line[0])
                  else InvalidUpdatedOn(line[1], line[0]))
    ensures r.IndexOutOfRange? <==> |line| < 4 || (|line| == 4 && Parse(line[3]).Some?)
  {
    if |line| < 4 then IndexOutOfRange
    else match Parse(line[3])
      case None => Rejected(InvalidCreatedOn(line[1], line[0]))
      case Some(createdOn) =>
        if |line| < 5 then IndexOutOfRange
        else match Parse(line[4])
          case None => Rejected(InvalidUpdatedOn(line[1], line[0]))
          case Some(updatedOn) =>
            FormatParse(line[3]);
            FormatParse(line[4]);
            Built(Record(line[1], line[2], createdOn, updatedOn))
  }

  /** Column 0 never reaches a built record: rows that differ only there build the same record. */
  lemma IdColumnIgnored(line: seq<string>, id: string)
    requires |line| > 0
    ensures ToRecord(line).Built? ==> ToRecord(line[0 := id]) == ToRecord(line)
  {
  }
}
