/**
  The two append-only logs of a run, as tagged events rather than text lines:
  the success log (`success.log`) and the error log (`errors.log`).
*/
module Events {

  datatype SuccessEvent =
    | Upserted(userID: string)   // "Upserted record with UserID: ..."
    | Inserted(userID: string)   // "Inserted record with UserID: ..."

  datatype ErrorEvent =
    | ReadFailed                                       // a CSV read error other than end of input
    | InvalidCreatedOn(userID: string, id: string)     // column 3 does not parse; names columns 1 and 0
    | InvalidUpdatedOn(userID: string, id: string)     // column 4 does not parse; names columns 1 and 0
    | UpsertFailed(userID: string)                     // UpdateOne returned an error
    | InsertRemainingFailed                            // the end-of-input InsertMany returned an error
}
