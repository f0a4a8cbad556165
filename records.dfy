/** The transaction record of backend/src/models/Record.model.ts and the record store the engine queries. */
module Records {
  import opened Wrappers
  import opened Text
  import Json

  /** Document ids (`ObjectId`): system-generated, modelled as naturals. */
  type ObjectId = nat

  /** A stored record. `amount` and `date` are required, so they are not optional here. */
  datatype Record = Record(
    id: ObjectId,
    uploadJobId: ObjectId,
    transactionId: string,
    referenceNumber: string,
    amount: real,
    date: int,
    description: Option<string>,
    sourceSystem: Option<string>,
    metadata: map<string, Json.Value>)

  /** What the schema guarantees of a stored record: the required strings are present (non-empty) and every
      string field has been trimmed. */
  predicate WellFormed(r: Record) {
    && r.transactionId != "" && IsTrimmed(r.transactionId)
    && r.referenceNumber != "" && IsTrimmed(r.referenceNumber)
    && (r.description.Some? ==> IsTrimmed(r.description.value))
    && (r.sourceSystem.Some? ==> IsTrimmed(r.sourceSystem.value))
  }

  /** A record as the schema builds it from the given values: strings are trimmed, a required string that is
      empty after trimming is rejected, and a missing `metadata` defaults to `{}`. */
  function NewRecord(id: ObjectId, uploadJobId: ObjectId, transactionId: string, referenceNumber: string,
                     amount: real, date: int, description: Option<string>, sourceSystem: Option<string>,
                     metadata: Option<map<string, Json.Value>>): (r: Option<Record>)
    ensures r.Some? <==> Trim(transactionId) != "" && Trim(referenceNumber) != ""
    ensures r.Some? ==> WellFormed(r.value)
    ensures r.Some? ==> r.value.id == id && r.value.uploadJobId == uploadJobId && r.value.amount == amount
                        && r.value.date == date
    ensures r.Some? && metadata.None? ==> r.value.metadata == map[]
    ensures r.Some? && metadata.Some? ==> r.value.metadata == metadata.value
  {
    var txn := Trim(transactionId);
    var ref := Trim(referenceNumber);
    if txn == "" || ref == "" then None
    else
      Some(Record(id, uploadJobId, txn, ref, amount, date,
        if description.Some? then Some(Trim(description.value)) else None,
        if sourceSystem.Some? then Some(Trim(sourceSystem.value)) else None,
        metadata.GetOr(map[])))
  }

  /** Record ids are unique in the store (`_id` is the only unique key). */
  ghost predicate UniqueIds(records: seq<Record>) {
    forall i, j :: 0 <= i < |records| && 0 <= j < |records| && i != j ==> records[i].id != records[j].id
  }

  /** A record store: records with distinct ids, each well formed. Nothing else is unique: the indexes on
      transaction id, reference number and upload job are plain ones. */
  ghost predicate ValidStore(records: seq<Record>) {
    UniqueIds(records) && forall r :: r in records ==> WellFormed(r)
  }

  /** No index is unique: two records of one upload job may share a transaction id and still form a valid store. */
  lemma SharedTransactionIdAllowed()
    ensures exists records: seq<Record> :: ValidStore(records) && |records| == 2
              && records[0].uploadJobId == records[1].uploadJobId
              && records[0].transactionId == records[1].transactionId
  {
    var a := Record(1, 7, "T1", "R1", 100.0, 0, None, None, map[]);
    var b := Record(2, 7, "T1", "R2", 50.0, 0, None, None, map[]);
    assert ValidStore([a, b]);
  }

  /** The store queries the engine issues, each a conjunction of equalities on record fields. */
  datatype Query =
    | ByJob(job: ObjectId)                                         // {uploadJobId}
    | SameTransactionAndAmount(txn: string, amount: real, notJob: ObjectId)   // {transactionId, amount, uploadJobId: {$ne}}
    | SameReference(ref: string, notJob: ObjectId)                 // {referenceNumber, uploadJobId: {$ne}}
    | SiblingDuplicates(txn: string, job: ObjectId, notId: ObjectId)  // {transactionId, uploadJobId, _id: {$ne}}

  predicate Matches(r: Record, q: Query) {
    match q
    case ByJob(job) => r.uploadJobId == job
    case SameTransactionAndAmount(txn, amount, notJob) => r.transactionId == txn && r.amount == amount && r.uploadJobId != notJob
    case SameReference(ref, notJob) => r.referenceNumber == ref && r.uploadJobId != notJob
    case SiblingDuplicates(txn, job, notId) => r.transactionId == txn && r.uploadJobId == job && r.id != notId
  }

  /** `Record.find(q)`: the matching records in store order. */
  function Select(records: seq<Record>, q: Query): (r: seq<Record>)
    ensures |r| <= |records|
    ensures forall x :: x in r <==> x in records && Matches(x, q)
    ensures forall k :: 0 <= k < |r| ==> Matches(r[k], q)
  {
    if records == [] then []
    else
      assert forall x :: x in records <==> x == records[0] || x in records[1..];
      (if Matches(records[0], q) then [records[0]] else []) + Select(records[1..], q)
  }

  /** `Record.find(q).limit(n)`: the first `n` matching records. */
  function Find(records: seq<Record>, q: Query, n: nat): (r: seq<Record>)
    ensures |r| == if |Select(records, q)| < n then |Select(records, q)| else n
    ensures r == Select(records, q)[..|r|]
    ensures forall x :: x in r ==> x in records && Matches(x, q)
  {
    var all := Select(records, q);
    if |all| <= n then all else all[..n]
  }
}
