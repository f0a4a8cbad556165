/** What backend/src/services/reconciliation.service.ts computes, written as functions of the record store,
    the result store and the configuration. The methods of `Reconciliation.ReconciliationService` are proved
    to compute exactly these; the lemmas of `EngineProperties` are proved about them. */
module EngineSpec {
  import opened Wrappers
  import opened Records
  import opened MatchResults
  import Rules

  /** `config.reconciliation`: the chunk size and the partial-match tolerance (a ratio, 0.02 by default). */
  datatype Config = Config(chunkSize: nat, partialMatchVariance: real)

  /** A rule's answer (a result, or `null` to let the next rule try, or the error a write raised) and the
      store it leaves behind. */
  datatype RuleStep = RuleStep(result: Result<Option<MatchResult>, StoreError>, store: Store)

  /** The outcome of a whole reconciliation run and the store it leaves behind. */
  datatype JobRun = JobRun(result: Result<Stats, StoreError>, store: Store)

  /** The `.limit(...)` caps of the three candidate queries. */
  const ExactLimit: nat := 10
  const PartialLimit: nat := 10
  const DuplicateLimit: nat := 5

  function Abs(x: real): real {
    if x < 0.0 then -x else x
  }

  /** `amountDiff / record.amount <= variance`. Division by a zero amount gives `Infinity` or `NaN` in
      JavaScript, and neither compares `<=` to a finite tolerance, so a zero amount never passes. */
  predicate WithinTolerance(diff: real, amount: real, tolerance: real) {
    amount != 0.0 && diff / amount <= tolerance
  }

  /** The candidate already holds a result whose status is one of `statuses` (`findOne({recordId, status})`). */
  predicate Claimed(store: Store, id: ObjectId, statuses: set<Status>) {
    id in store.byRecord && store.byRecord[id].status in statuses
  }

  /** The two `createReconciliationResult` calls of a match: first the counterpart's result (tagged with its
      own upload job and pointing at `rec`), then the current record's (tagged with `job`, pointing back). */
  function CreatePair(store: Store, cand: Record, rec: Record, job: ObjectId, status: Status, ruleName: string,
                      reason: Reason, confidence: real, amountVariance: Option<real>): RuleStep
  {
    var w1 := Create(store, Draft(cand.id, cand.uploadJobId, status, Some(rec.id), Some(ruleName), Some(reason),
                                  Some(confidence), amountVariance));
    if w1.result.Failure? then RuleStep(Failure(w1.result.error), w1.store)
    else
      var w2 := Create(w1.store, Draft(rec.id, job, status, Some(cand.id), Some(ruleName), Some(reason),
                                       Some(confidence), amountVariance));
      if w2.result.Failure? then RuleStep(Failure(w2.result.error), w2.store)
      else RuleStep(Success(Some(w2.result.value)), w2.store)
  }

  /** The EXACT_MATCH candidates: records of other upload jobs with the same transaction id and amount. */
  function ExactCandidates(records: seq<Record>, rec: Record, job: ObjectId): seq<Record> {
    Find(records, SameTransactionAndAmount(rec.transactionId, rec.amount, job), ExactLimit)
  }

  /** `applyExactMatchRule`: only the first candidate is considered, and it is taken unless it already holds
      a MATCHED result. */
  function ExactMatch(records: seq<Record>, store: Store, rec: Record, job: ObjectId): RuleStep {
    var matches := ExactCandidates(records, rec, job);
    if |matches| == 0 || Claimed(store, matches[0].id, {MATCHED}) then RuleStep(Success(None), store)
    else CreatePair(store, matches[0], rec, job, MATCHED, Rules.ExactMatch, ExactReason, 1.0, None)
  }

  /** The PARTIAL_MATCH candidates: records of other upload jobs with the same reference number. */
  function PartialCandidates(records: seq<Record>, rec: Record, job: ObjectId): seq<Record> {
    Find(records, SameReference(rec.referenceNumber, job), PartialLimit)
  }

  /** The candidate loop of `applyPartialMatchRule`: the first candidate within tolerance that holds no
      MATCHED or PARTIAL result is paired; the stored variance is the absolute difference and the
      confidence is one minus the ratio. */
  function PartialScan(cands: seq<Record>, store: Store, rec: Record, job: ObjectId, tolerance: real): RuleStep {
    if cands == [] then RuleStep(Success(None), store)
    else
      var m := cands[0];
      var diff := Abs(m.amount - rec.amount);
      if WithinTolerance(diff, rec.amount, tolerance) && !Claimed(store, m.id, {MATCHED, PARTIAL}) then
        var ratio := diff / rec.amount;
        CreatePair(store, m, rec, job, PARTIAL, Rules.PartialMatch, PartialReason(ratio), 1.0 - ratio, Some(diff))
      else
        PartialScan(cands[1..], store, rec, job, tolerance)
  }

  /** `applyPartialMatchRule`. */
  /** One candidate of the scan: a pair with it, or the scan of the rest. */
  lemma PartialScanStep(cands: seq<Record>, store: Store, rec: Record, job: ObjectId, tolerance: real)
    requires cands != []
    ensures var diff := Abs(cands[0].amount - rec.amount);
            PartialScan(cands, store, rec, job, tolerance)
            == if WithinTolerance(diff, rec.amount, tolerance) && !Claimed(store, cands[0].id, {MATCHED, PARTIAL})
               then CreatePair(store, cands[0], rec, job, PARTIAL, Rules.PartialMatch, PartialReason(diff / rec.amount),
                               1.0 - diff / rec.amount, Some(diff))
               else PartialScan(cands[1..], store, rec, job, tolerance)
  {
  }

  function PartialMatch(records: seq<Record>, store: Store, rec: Record, job: ObjectId, tolerance: real): RuleStep {
    PartialScan(PartialCandidates(records, rec, job), store, rec, job, tolerance)
  }

  /** The DUPLICATE_DETECTION siblings: other records of the same upload job with the same transaction id. */
  function Siblings(records: seq<Record>, rec: Record, job: ObjectId): seq<Record> {
    Find(records, SiblingDuplicates(rec.transactionId, job, rec.id), DuplicateLimit)
  }

  /** `applyDuplicateDetectionRule`: marks the current record, and only it, as DUPLICATE. */
  function DuplicateDetection(records: seq<Record>, store: Store, rec: Record, job: ObjectId): RuleStep {
    var dups := Siblings(records, rec, job);
    if |dups| == 0 then RuleStep(Success(None), store)
    else
      var w := Create(store, Draft(rec.id, job, DUPLICATE, None, Some(Rules.DuplicateDetection),
                                   Some(DuplicateReason(|dups|)), Some(1.0), None));
      RuleStep(if w.result.Success? then Success(Some(w.result.value)) else Failure(w.result.error), w.store)
  }

  /** The `switch (rule.name)`: a name without a case yields `null`. */
  function ApplyRule(name: string, records: seq<Record>, store: Store, rec: Record, job: ObjectId,
                     tolerance: real): RuleStep {
    if name == Rules.ExactMatch then ExactMatch(records, store, rec, job)
    else if name == Rules.PartialMatch then PartialMatch(records, store, rec, job, tolerance)
    else if name == Rules.DuplicateDetection then DuplicateDetection(records, store, rec, job)
    else RuleStep(Success(None), store)
  }

  /** The rule loop of `reconcileRecord`: the first rule with a result (or an error) ends the loop. */
  function TryRules(rules: seq<Rules.Rule>, records: seq<Record>, store: Store, rec: Record, job: ObjectId,
                    tolerance: real): RuleStep {
    if rules == [] then RuleStep(Success(None), store)
    else
      var s := ApplyRule(rules[0].name, records, store, rec, job, tolerance);
      if s.result.Failure? || s.result.value.Some? then s
      else TryRules(rules[1..], records, s.store, rec, job, tolerance)
  }

  /** The UNMATCHED fallback result. Its confidence is left to the schema default. */
  function UnmatchedDraft(rec: Record, job: ObjectId): Draft {
    Draft(rec.id, job, UNMATCHED, None, Some("UNMATCHED"), Some(NoMatchReason), None, None)
  }

  /** The rule loop of `reconcileRecord` over `rules`, then the UNMATCHED fallback when no rule fires. */
  function RulesThenFallback(rules: seq<Rules.Rule>, records: seq<Record>, store: Store, rec: Record, job: ObjectId,
                             tolerance: real): Write {
    var s := TryRules(rules, records, store, rec, job, tolerance);
    if s.result.Failure? then Write(Failure(s.result.error), s.store)
    else if s.result.value.Some? then Write(Success(s.result.value.value), s.store)
    else Create(s.store, UnmatchedDraft(rec, job))
  }

  /** `reconcileRecord`: an existing result is returned untouched; otherwise the active rules are tried in
      priority order and an UNMATCHED result is created when none fires. */
  function ReconcileRecord(rules: seq<Rules.Rule>, records: seq<Record>, store: Store, rec: Record, job: ObjectId,
                           tolerance: real): Write {
    if rec.id in store.byRecord then Write(Success(store.byRecord[rec.id]), store)
    else RulesThenFallback(rules, records, store, rec, job, tolerance)
  }

  /** The record loop of `reconcileUploadJob` after the records `recs` (in order), starting from counters
      `{total, 0, 0, 0, 0}`: each record's result adds one to the counter its status names, and the first
      error ends the run. */
  function RunRecords(rules: seq<Rules.Rule>, records: seq<Record>, store: Store, recs: seq<Record>, job: ObjectId,
                      tolerance: real, total: nat): JobRun
    decreases |recs|
  {
    if recs == [] then JobRun(Success(Stats(total, 0, 0, 0, 0)), store)
    else
      var prev := RunRecords(rules, records, store, recs[..|recs| - 1], job, tolerance, total);
      if prev.result.Failure? then prev
      else
        var w := ReconcileRecord(rules, records, prev.store, recs[|recs| - 1], job, tolerance);
        if w.result.Failure? then JobRun(Failure(w.result.error), w.store)
        else JobRun(Success(Bump(prev.result.value, w.result.value.status)), w.store)
  }

  /** The store after one more record: unchanged once the run has failed, else the record's write. */
  lemma RunRecordsLastStore(rules: seq<Rules.Rule>, records: seq<Record>, store: Store, recs: seq<Record>,
                            job: ObjectId, tolerance: real, total: nat)
    requires recs != []
    ensures var prev := RunRecords(rules, records, store, recs[..|recs| - 1], job, tolerance, total);
            RunRecords(rules, records, store, recs, job, tolerance, total).store
            == if prev.result.Failure? then prev.store
               else ReconcileRecord(rules, records, prev.store, recs[|recs| - 1], job, tolerance).store
  {
  }

  /** `reconcileUploadJob(job)`: all-zero counters for a job without records; otherwise the run over the job's
      records in store order, with `total` set to their number. */
  function RunJob(rules: seq<Rules.Rule>, records: seq<Record>, store: Store, job: ObjectId, config: Config): JobRun {
    var recs := Select(records, ByJob(job));
    if |recs| == 0 then JobRun(Success(Stats(0, 0, 0, 0, 0)), store)
    else RunRecords(rules, records, store, recs, job, config.partialMatchVariance, |recs|)
  }
}
