/**
  The document store as the core sees it: `UpdateOne` with upsert and
  `InsertMany`. Their replies come from an oracle, indexed by how many calls of
  the same kind came before, so every behaviour of a real store, failures
  included, is one choice of oracle.
*/
module Store {
  import opened Records

  /** The reply to `UpdateOne`: an error, or the matched and modified counts. */
  datatype UpsertReply = UpsertError | UpsertResult(matched: nat, modified: nat)

  /** The reply to `InsertMany`: it succeeds or fails as one reply; what a failed call wrote is not modelled. */
  datatype InsertReply = InsertOk | InsertError

  datatype Oracle = Oracle(upsert: nat -> UpsertReply, insert: nat -> InsertReply)

  /** The collection: the requests it has received so far, and the oracle that answers them. */
  class Collection {
    const oracle: Oracle
    var updates: seq<Record>          // the record of every UpdateOne call, in order
    var batches: seq<seq<Record>>     // the argument of every InsertMany call, in order

    constructor (oracle: Oracle)
      ensures this.oracle == oracle && updates == [] && batches == []
    {
      this.oracle := oracle;
      updates := [];
      batches := [];
    }

    /** Upserts `record` by its user id, setting the other three fields. */
    method UpdateOne(record: Record) returns (reply: UpsertReply)
      modifies this
      ensures reply == oracle.upsert(|old(updates)|)
      ensures updates == old(updates) + [record] && batches == old(batches)
    {
      reply := oracle.upsert(|updates|);
      updates := updates + [record];
    }

    method InsertMany(records: seq<Record>) returns (reply: InsertReply)
      modifies this
      ensures reply == oracle.insert(|old(batches)|)
      ensures batches == old(batches) + [records] && updates == old(updates)
    {
      reply := oracle.insert(|batches|);
      batches := batches + [records];
    }
  }
}
