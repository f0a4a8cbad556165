/** The reconciliation result of backend/src/models/ReconciliationResult.model.ts and the result store with
    its unique index on `recordId`. */
module MatchResults {
  import opened Wrappers
  import opened Text
  import opened Records

  /** `ReconciliationStatus`. */
  datatype Status = MATCHED | PARTIAL | UNMATCHED | DUPLICATE

  /** The explanation a rule attaches (the source renders these as text; the variance is a ratio here,
      not the percentage string with two decimals). */
  datatype Reason =
    | ExactReason                  // 'Exact match on transaction ID and amount'
    | PartialReason(ratio: real)   // 'Partial match on reference number with amount variance of <ratio*100>%'
    | DuplicateReason(count: nat)  // 'Duplicate transaction ID found <count> time(s) in the same upload'
    | NoMatchReason                // 'No matching record found'

  datatype MatchResult = MatchResult(
    id: nat,
    recordId: ObjectId,
    uploadJobId: ObjectId,
    status: Status,
    matchedWith: Option<ObjectId>,
    confidence: real,
    reason: Option<Reason>,
    ruleName: Option<string>,
    amountVariance: real,
    manuallyReviewed: bool,
    reviewedBy: Option<ObjectId>,
    reviewedAt: Option<int>,
    notes: Option<string>)

  /** The fields `createReconciliationResult` passes to `create`; an absent option is `undefined`. */
  datatype Draft = Draft(
    recordId: ObjectId,
    uploadJobId: ObjectId,
    status: Status,
    matchedWith: Option<ObjectId>,
    ruleName: Option<string>,
    reason: Option<Reason>,
    confidence: Option<real>,
    amountVariance: Option<real>)

  /** The result collection: at most one result per record id (the unique index), and the counter that
      hands out result ids. */
  datatype Store = Store(byRecord: map<ObjectId, MatchResult>, nextId: nat)

  datatype StoreError =
    | DuplicateKey(recordId: ObjectId)                     // E11000 on the unique `recordId` index
    | ConfidenceOutOfRange(recordId: ObjectId, confidence: real)   // schema `min: 0, max: 1`

  /** A write and the store it leaves behind. */
  datatype Write = Write(result: Result<MatchResult, StoreError>, store: Store)

  /** Schema bounds on `confidence`. */
  predicate ConfidenceOk(c: real) {
    0.0 <= c <= 1.0
  }

  /** The document `create` stores: `confidence` defaults to 1, `amountVariance` to 0, and a fresh result
      is not reviewed. */
  function Build(d: Draft, id: nat): (m: MatchResult)
    ensures m.id == id && m.recordId == d.recordId && m.uploadJobId == d.uploadJobId && m.status == d.status
    ensures m.matchedWith == d.matchedWith && m.ruleName == d.ruleName && m.reason == d.reason
    ensures m.confidence == d.confidence.GetOr(1.0) && m.amountVariance == d.amountVariance.GetOr(0.0)
    ensures !m.manuallyReviewed && m.reviewedBy.None? && m.reviewedAt.None? && m.notes.None?
  {
    MatchResult(id, d.recordId, d.uploadJobId, d.status, d.matchedWith, d.confidence.GetOr(1.0),
      d.reason, d.ruleName, d.amountVariance.GetOr(0.0), false, None, None, None)
  }

  /** `ReconciliationResult.create(d)`: schema validation first, then the insert, which the unique index
      rejects when the record already has a result. A failed create leaves the store as it was. */
  function Create(store: Store, d: Draft): (w: Write)
    ensures w.result.Success? <==> ConfidenceOk(d.confidence.GetOr(1.0)) && d.recordId !in store.byRecord
    ensures w.result.Success? ==>
              && w.result.value == Build(d, store.nextId)
              && w.store == Store(store.byRecord[d.recordId := w.result.value], store.nextId + 1)
    ensures w.result.Failure? ==> w.store == store
    ensures w.result.Failure? && !ConfidenceOk(d.confidence.GetOr(1.0)) ==>
              w.result.error == ConfidenceOutOfRange(d.recordId, d.confidence.GetOr(1.0))
    ensures w.result.Failure? && ConfidenceOk(d.confidence.GetOr(1.0)) ==>
              w.result.error == DuplicateKey(d.recordId)
  {
    var c := d.confidence.GetOr(1.0);
    if !ConfidenceOk(c) then Write(Failure(ConfidenceOutOfRange(d.recordId, c)), store)
    else if d.recordId in store.byRecord then Write(Failure(DuplicateKey(d.recordId)), store)
    else
      var m := Build(d, store.nextId);
      Write(Success(m), Store(store.byRecord[d.recordId := m], store.nextId + 1))
  }

  /** What the schema and the unique index guarantee of the stored results: each sits under its own record id,
      result ids are distinct and below the counter, and confidences lie within [0, 1]. */
  ghost predicate Valid(store: Store) {
    && (forall k :: k in store.byRecord ==> store.byRecord[k].recordId == k)
    && (forall k :: k in store.byRecord ==> store.byRecord[k].id < store.nextId)
    && (forall k :: k in store.byRecord ==> ConfidenceOk(store.byRecord[k].confidence))
    && (forall k, k' :: k in store.byRecord && k' in store.byRecord && k != k' ==>
          store.byRecord[k].id != store.byRecord[k'].id)
  }

  /** A successful create keeps the store valid and changes nothing but the new entry: a record never
      receives a second result. */
  lemma CreatePreservesValid(store: Store, d: Draft)
    requires Valid(store)
    ensures Valid(Create(store, d).store)
    ensures forall k :: k in store.byRecord ==>
              k in Create(store, d).store.byRecord && Create(store, d).store.byRecord[k] == store.byRecord[k]
  {
  }

  /** Results `a` and `b` point at each other and agree on rule, reason and confidence. */
  ghost predicate Linked(store: Store, a: ObjectId, b: ObjectId) {
    && a in store.byRecord && b in store.byRecord
    && store.byRecord[a].matchedWith == Some(b)
    && store.byRecord[b].matchedWith == Some(a)
    && store.byRecord[a].ruleName == store.byRecord[b].ruleName
    && store.byRecord[a].reason == store.byRecord[b].reason
    && store.byRecord[a].confidence == store.byRecord[b].confidence
  }

  /** Every link is mutual: a result matched with `x` has a partner result for `x` pointing back. */
  ghost predicate Symmetric(store: Store) {
    forall k :: k in store.byRecord && store.byRecord[k].matchedWith.Some? ==>
      Linked(store, k, store.byRecord[k].matchedWith.value)
  }

  /** A result after manual review (`{...updates, manuallyReviewed: true, reviewedBy, reviewedAt}`): status and
      notes change only when given (notes are trimmed by the schema); nothing the engine wrote changes. */
  function Reviewed(m: MatchResult, userId: ObjectId, status: Option<Status>, notes: Option<string>, now: int): (r: MatchResult)
    ensures r.manuallyReviewed && r.reviewedBy == Some(userId) && r.reviewedAt == Some(now)
    ensures r.status == (if status.Some? then status.value else m.status)
    ensures notes.Some? ==> r.notes == Some(Trim(notes.value))
    ensures notes.None? ==> r.notes == m.notes
    ensures r.id == m.id && r.recordId == m.recordId && r.uploadJobId == m.uploadJobId
    ensures r.matchedWith == m.matchedWith && r.ruleName == m.ruleName && r.reason == m.reason
    ensures r.confidence == m.confidence && r.amountVariance == m.amountVariance
  {
    m.(status := status.GetOr(m.status),
       notes := if notes.Some? then Some(Trim(notes.value)) else m.notes,
       manuallyReviewed := true, reviewedBy := Some(userId), reviewedAt := Some(now))
  }

  /** Review changes no link, so the store stays valid and symmetric. */
  lemma ReviewPreservesInvariants(store: Store, k: ObjectId, userId: ObjectId, status: Option<Status>,
                                  notes: Option<string>, now: int)
    requires k in store.byRecord && Valid(store) && Symmetric(store)
    ensures var s' := Store(store.byRecord[k := Reviewed(store.byRecord[k], userId, status, notes, now)], store.nextId);
            Valid(s') && Symmetric(s')
  {
    var s' := Store(store.byRecord[k := Reviewed(store.byRecord[k], userId, status, notes, now)], store.nextId);
    forall j | j in s'.byRecord && s'.byRecord[j].matchedWith.Some?
      ensures Linked(s', j, s'.byRecord[j].matchedWith.value)
    {
      assert Linked(store, j, store.byRecord[j].matchedWith.value);
    }
  }

  /** `ReconciliationStats`: the four per-status counters and their total. */
  datatype Stats = Stats(total: nat, matched: nat, partial: nat, unmatched: nat, duplicate: nat)

  /** `stats[status.toLowerCase()]++`: one more in the counter named by `st`. */
  function Bump(s: Stats, st: Status): (r: Stats)
    ensures r.total == s.total
    ensures r.matched + r.partial + r.unmatched + r.duplicate == s.matched + s.partial + s.unmatched + s.duplicate + 1
    ensures r.matched == s.matched + (if st == MATCHED then 1 else 0)
    ensures r.partial == s.partial + (if st == PARTIAL then 1 else 0)
    ensures r.unmatched == s.unmatched + (if st == UNMATCHED then 1 else 0)
    ensures r.duplicate == s.duplicate + (if st == DUPLICATE then 1 else 0)
  {
    match st
    case MATCHED => s.(matched := s.matched + 1)
    case PARTIAL => s.(partial := s.partial + 1)
    case UNMATCHED => s.(unmatched := s.unmatched + 1)
    case DUPLICATE => s.(duplicate := s.duplicate + 1)
  }

  /** Sum of the four per-status counters. */
  function Counted(s: Stats): nat {
    s.matched + s.partial + s.unmatched + s.duplicate
  }

  /** The stored results of upload job `job`. */
  ghost function JobKeys(store: Store, job: ObjectId): set<ObjectId> {
    set k | k in store.byRecord && store.byRecord[k].uploadJobId == job
  }

  /** The results of upload job `job` with status `st` (one `$group` bucket of the aggregation). */
  function Bucket(store: Store, job: ObjectId, st: Status): set<ObjectId> {
    set k | k in store.byRecord && store.byRecord[k].uploadJobId == job && store.byRecord[k].status == st
  }

  /** The size of one bucket. */
  function CountStatus(store: Store, job: ObjectId, st: Status): nat {
    |Bucket(store, job, st)|
  }

  lemma DisjointCard(a: set<ObjectId>, b: set<ObjectId>)
    requires a !! b
    ensures |a + b| == |a| + |b|
  {
  }

  /** The four status buckets partition a job's results. */
  lemma BucketsPartition(store: Store, job: ObjectId)
    ensures CountStatus(store, job, MATCHED) + CountStatus(store, job, PARTIAL)
            + CountStatus(store, job, UNMATCHED) + CountStatus(store, job, DUPLICATE) == |JobKeys(store, job)|
  {
    var m, p, u, d := Bucket(store, job, MATCHED), Bucket(store, job, PARTIAL),
                      Bucket(store, job, UNMATCHED), Bucket(store, job, DUPLICATE);
    forall k ensures k in JobKeys(store, job) <==> k in m + p + u + d {
    }
    assert JobKeys(store, job) == m + p + u + d;
    DisjointCard(m, p);
    DisjointCard(m + p, u);
    DisjointCard(m + p + u, d);
  }

  /** The value a `$match` stage compares each stored `uploadJobId` with. Aggregation stages are not cast to the
      schema, so the string id `getReconciliationStats` receives stays a string, while every stored
      `uploadJobId` is an ObjectId. */
  datatype MatchValue = IdValue(id: ObjectId) | TextValue(text: string)

  /** BSON equality of a stored ObjectId with a `$match` value: a string never equals an ObjectId. */
  predicate SameJobId(stored: ObjectId, v: MatchValue) {
    v.IdValue? && v.id == stored
  }

  /** One `$group` bucket of the aggregation as written: the results that pass `$match: { uploadJobId: v }`
      and have status `st`. */
  function MatchedBucket(store: Store, v: MatchValue, st: Status): set<ObjectId> {
    set k | k in store.byRecord && SameJobId(store.byRecord[k].uploadJobId, v) && store.byRecord[k].status == st
  }

  /** `getReconciliationStats` as written: the `$group` counts of the results the uncast `$match` lets through,
      and `total` is their sum. */
  function StatsAsWritten(store: Store, v: MatchValue): (s: Stats)
    ensures s.total == Counted(s)
  {
    var m, p, u, d := |MatchedBucket(store, v, MATCHED)|, |MatchedBucket(store, v, PARTIAL)|,
                      |MatchedBucket(store, v, UNMATCHED)|, |MatchedBucket(store, v, DUPLICATE)|;
    Stats(m + p + u + d, m, p, u, d)
  }

  /** Both callers pass the id as a string, so as written every counter, `total` included, is 0. */
  lemma StringIdCountsNothing(store: Store, text: string)
    ensures StatsAsWritten(store, TextValue(text)) == Stats(0, 0, 0, 0, 0)
  {
    StringBucketEmpty(store, text, MATCHED);
    StringBucketEmpty(store, text, PARTIAL);
    StringBucketEmpty(store, text, UNMATCHED);
    StringBucketEmpty(store, text, DUPLICATE);
  }

  /** With a string id, no stored result passes the `$match`, so each bucket is empty. */
  lemma StringBucketEmpty(store: Store, text: string, st: Status)
    ensures |MatchedBucket(store, TextValue(text), st)| == 0
  {
    if k :| k in MatchedBucket(store, TextValue(text), st) {
      assert false;
    }
  }

  /** With the id cast to an ObjectId, the aggregation counts exactly the job's buckets. */
  lemma CastIdCountsJob(store: Store, job: ObjectId)
    ensures var s := StatsAsWritten(store, IdValue(job));
            && s.matched == CountStatus(store, job, MATCHED) && s.partial == CountStatus(store, job, PARTIAL)
            && s.unmatched == CountStatus(store, job, UNMATCHED) && s.duplicate == CountStatus(store, job, DUPLICATE)
            && s.total == |JobKeys(store, job)|
  {
    CastBucket(store, job, MATCHED);
    CastBucket(store, job, PARTIAL);
    CastBucket(store, job, UNMATCHED);
    CastBucket(store, job, DUPLICATE);
    BucketsPartition(store, job);
  }

  /** With the id cast, one bucket of the aggregation is the job's bucket. */
  lemma CastBucket(store: Store, job: ObjectId, st: Status)
    ensures MatchedBucket(store, IdValue(job), st) == Bucket(store, job, st)
  {
    forall k ensures k in MatchedBucket(store, IdValue(job), st) <==> k in Bucket(store, job, st) {
    }
  }

  /** The discrepancy: for any job with a stored result the intended counts are positive, while the query as
      written reports nothing, whatever string the caller passes. */
  lemma StringMatchLosesResults(store: Store, job: ObjectId, text: string, k: ObjectId)
    requires k in store.byRecord && store.byRecord[k].uploadJobId == job
    ensures StatsAsWritten(store, TextValue(text)).total == 0
    ensures StatsAsWritten(store, IdValue(job)).total > 0
  {
    StringIdCountsNothing(store, text);
    CastIdCountsJob(store, job);
    assert k in JobKeys(store, job);
  }
}
