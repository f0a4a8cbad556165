/** The `ReconciliationService` of backend/src/services/reconciliation.service.ts. The record collection is
    fixed during a run; the result collection is the mutable `store`. */
module Reconciliation {
  import opened Wrappers
  import opened Records
  import opened MatchResults
  import opened EngineSpec
  import Rules

  class ReconciliationService {
    const records: seq<Record>
    const config: Config
    /** The rule list `reconcileRecord` asks the registry for (`getActiveRules()`). The registry's table never
        changes, so it is read once here: `Rules.ShippedOrder` proves the active rules are the whole table, in
        priority order. */
    const rules: seq<Rules.Rule>
    var store: Store

    constructor (records: seq<Record>, config: Config, store: Store)
      ensures this.records == records && this.config == config && this.store == store
      ensures rules == Rules.Table
    {
      this.records := records;
      this.config := config;
      this.rules := Rules.Table;
      this.store := store;
    }

    /** `createReconciliationResult`: one `create`, which may fail. */
    method CreateReconciliationResult(d: Draft) returns (r: Result<MatchResult, StoreError>)
      modifies this
      ensures Write(r, store) == Create(old(store), d)
    {
      var w := Create(store, d);
      store := w.store;
      r := w.result;
    }

    /** The two `createReconciliationResult` calls of a match: first the counterpart's result pointing at
        `rec`, then `rec`'s own pointing back; the first failure is returned. */
    method CreateMatchPair(cand: Record, rec: Record, job: ObjectId, status: Status, ruleName: string, reason: Reason,
                           confidence: real, amountVariance: Option<real>)
      returns (r: Result<Option<MatchResult>, StoreError>)
      modifies this
      ensures RuleStep(r, store) == CreatePair(old(store), cand, rec, job, status, ruleName, reason, confidence, amountVariance)
    {
      var first := CreateReconciliationResult(Draft(cand.id, cand.uploadJobId, status, Some(rec.id),
        Some(ruleName), Some(reason), Some(confidence), amountVariance));
      if first.Failure? {
        return Failure(first.error);
      }
      var second := CreateReconciliationResult(Draft(rec.id, job, status, Some(cand.id),
        Some(ruleName), Some(reason), Some(confidence), amountVariance));
      if second.Failure? {
        return Failure(second.error);
      }
      return Success(Some(second.value));
    }

    /** `applyExactMatchRule`. */
    method ApplyExactMatchRule(rec: Record, job: ObjectId) returns (r: Result<Option<MatchResult>, StoreError>)
      modifies this
      ensures RuleStep(r, store) == ExactMatch(records, old(store), rec, job)
    {
      var matches := Find(records, SameTransactionAndAmount(rec.transactionId, rec.amount, job), ExactLimit);
      if |matches| > 0 {
        var matched := matches[0];
        var existingMatch := Claimed(store, matched.id, {MATCHED});
        if !existingMatch {
          r := CreateMatchPair(matched, rec, job, MATCHED, Rules.ExactMatch, ExactReason, 1.0, None);
          return;
        }
      }
      return Success(None);
    }

    /** `applyPartialMatchRule`: the candidates sharing the reference number, scanned in order. */
    method ApplyPartialMatchRule(rec: Record, job: ObjectId) returns (r: Result<Option<MatchResult>, StoreError>)
      modifies this
      ensures RuleStep(r, store) == PartialMatch(records, old(store), rec, job, config.partialMatchVariance)
    {
      var matches := Find(records, SameReference(rec.referenceNumber, job), PartialLimit);
      if |matches| == 0 {
        return Success(None);
      }
      r := ScanCandidates(matches, rec, job, config.partialMatchVariance);
    }

    /** The candidate loop of `applyPartialMatchRule`: the first candidate within the tolerance and not yet
        MATCHED or PARTIAL is paired with `rec`, and the loop returns there. */
    method ScanCandidates(matches: seq<Record>, rec: Record, job: ObjectId, variance: real)
      returns (r: Result<Option<MatchResult>, StoreError>)
      modifies this
      ensures RuleStep(r, store) == PartialScan(matches, old(store), rec, job, variance)
    {
      var i := 0;
      while i < |matches|
        invariant 0 <= i <= |matches|
        invariant store == old(store)
        invariant PartialScan(matches[i..], store, rec, job, variance) == PartialScan(matches, old(store), rec, job, variance)
      {
        var matched := matches[i];
        var amountDiff := Abs(matched.amount - rec.amount);
        PartialScanStep(matches[i..], store, rec, job, variance);
        assert matches[i..][0] == matched && matches[i..][1..] == matches[i + 1..];
        if WithinTolerance(amountDiff, rec.amount, variance) {
          var existingMatch := Claimed(store, matched.id, {MATCHED, PARTIAL});
          if !existingMatch {
            var amountVariance := amountDiff / rec.amount;
            r := CreateMatchPair(matched, rec, job, PARTIAL, Rules.PartialMatch, PartialReason(amountVariance),
              1.0 - amountVariance, Some(amountDiff));
            return;
          }
        }
        i := i + 1;
      }
      return Success(None);
    }

    /** `applyDuplicateDetectionRule`. */
    method ApplyDuplicateDetectionRule(rec: Record, job: ObjectId) returns (r: Result<Option<MatchResult>, StoreError>)
      modifies this
      ensures RuleStep(r, store) == DuplicateDetection(records, old(store), rec, job)
    {
      var duplicates := Find(records, SiblingDuplicates(rec.transactionId, job, rec.id), DuplicateLimit);
      if |duplicates| > 0 {
        var created := CreateReconciliationResult(Draft(rec.id, job, DUPLICATE, None,
          Some(Rules.DuplicateDetection), Some(DuplicateReason(|duplicates|)), Some(1.0), None));
        if created.Failure? {
          return Failure(created.error);
        }
        return Success(Some(created.value));
      }
      return Success(None);
    }

    /** The `switch (rule.name)` of `reconcileRecord`: a name without a case yields `null`. */
    method ApplyNamedRule(name: string, rec: Record, job: ObjectId) returns (r: Result<Option<MatchResult>, StoreError>)
      modifies this
      ensures RuleStep(r, store) == ApplyRule(name, records, old(store), rec, job, config.partialMatchVariance)
    {
      if name == Rules.ExactMatch {
        r := ApplyExactMatchRule(rec, job);
      } else if name == Rules.PartialMatch {
        r := ApplyPartialMatchRule(rec, job);
      } else if name == Rules.DuplicateDetection {
        r := ApplyDuplicateDetectionRule(rec, job);
      } else {
        r := Success(None);
      }
    }

    /** `reconcileRecord`. */
    method ReconcileRecord(rec: Record, job: ObjectId) returns (r: Result<MatchResult, StoreError>)
      modifies this
      ensures Write(r, store) == EngineSpec.ReconcileRecord(rules, records, old(store), rec, job, config.partialMatchVariance)
    {
      if rec.id in store.byRecord {
        return Success(store.byRecord[rec.id]);
      }
      r := ApplyRulesInOrder(rec, job, rules);
    }

    /** The `for (const rule of rules)` loop of `reconcileRecord` and its UNMATCHED fallback. */
    method ApplyRulesInOrder(rec: Record, job: ObjectId, rules: seq<Rules.Rule>) returns (r: Result<MatchResult, StoreError>)
      modifies this
      ensures Write(r, store) == RulesThenFallback(rules, records, old(store), rec, job, config.partialMatchVariance)
    {
      for i := 0 to |rules|
        invariant TryRules(rules[i..], records, store, rec, job, config.partialMatchVariance)
               == TryRules(rules, records, old(store), rec, job, config.partialMatchVariance)
      {
        assert rules[i..][1..] == rules[i + 1..];
        var result := ApplyNamedRule(rules[i].name, rec, job);
        if result.Failure? {
          return Failure(result.error);
        }
        if result.value.Some? {
          return Success(result.value.value);
        }
      }
      r := CreateReconciliationResult(UnmatchedDraft(rec, job));
    }

    /** `reconcileUploadJob`: the job's records are visited chunk by chunk (`records.slice(i, i + chunkSize)`),
        each exactly once and in store order, and the first error aborts the run. */
    method ReconcileUploadJob(job: ObjectId) returns (r: Result<Stats, StoreError>)
      requires config.chunkSize > 0
      modifies this
      ensures JobRun(r, store) == RunJob(rules, records, old(store), job, config)
    {
      var recs := Select(records, ByJob(job));
      if |recs| == 0 {
        return Success(Stats(0, 0, 0, 0, 0));
      }
      var stats := Stats(|recs|, 0, 0, 0, 0);
      var chunkSize := config.chunkSize;
      var tolerance := config.partialMatchVariance;
      var i := 0;
      ghost var done := 0;
      while i < |recs|
        invariant 0 <= i <= |recs| + chunkSize
        invariant done == if i < |recs| then i else |recs|
        invariant JobRun(Success(stats), store) == RunRecords(rules, records, old(store), recs[..done], job, tolerance, |recs|)
        decreases |recs| - i
      {
        var end := if i + chunkSize < |recs| then i + chunkSize else |recs|;
        var result := ReconcileChunk(job, recs, i, end, stats, old(store));
        if result.Failure? {
          return Failure(result.error);
        }
        stats := result.value;
        done := end;
        i := i + chunkSize;
      }
      assert recs[..|recs|] == recs;
      return Success(stats);
    }

    /** `for (const record of chunk)` with `chunk = records.slice(start, end)`, walking the positions
        `start` to `end` of the job's records: each record of the chunk is reconciled and counted, and the first
        error ends the run. */
    method ReconcileChunk(job: ObjectId, recs: seq<Record>, start: nat, end: nat, stats: Stats, ghost s0: Store)
      returns (r: Result<Stats, StoreError>)
      requires start <= end <= |recs|
      requires JobRun(Success(stats), store) == RunRecords(rules, records, s0, recs[..start], job, config.partialMatchVariance, |recs|)
      modifies this
      ensures r.Success? ==> JobRun(r, store) == RunRecords(rules, records, s0, recs[..end], job, config.partialMatchVariance, |recs|)
      ensures r.Failure? ==> JobRun(r, store) == RunRecords(rules, records, s0, recs, job, config.partialMatchVariance, |recs|)
    {
      var tolerance := config.partialMatchVariance;
      var counters := stats;
      for n := start to end
        invariant JobRun(Success(counters), store) == RunRecords(rules, records, s0, recs[..n], job, tolerance, |recs|)
      {
        var record := recs[n];
        ghost var before := store;
        var result := ReconcileRecord(record, job);
        RunStep(rules, records, s0, recs, n, job, tolerance, |recs|, counters, before, Write(result, store));
        if result.Failure? {
          return Failure(result.error);
        }
        counters := Bump(counters, result.value.status);
      }
      return Success(counters);
    }

    /** One more record of the run: its result extends the run, and its failure ends it. */
    static lemma RunStep(rules: seq<Rules.Rule>, records: seq<Record>, s0: Store, recs: seq<Record>, n: nat,
                         job: ObjectId, tolerance: real,
                         total: nat, stats: Stats, before: Store, w: Write)
      requires n < |recs|
      requires RunRecords(rules, records, s0, recs[..n], job, tolerance, total) == JobRun(Success(stats), before)
      requires w == EngineSpec.ReconcileRecord(rules, records, before, recs[n], job, tolerance)
      ensures w.result.Failure? ==> RunRecords(rules, records, s0, recs, job, tolerance, total) == JobRun(Failure(w.result.error), w.store)
      ensures w.result.Success? ==>
                RunRecords(rules, records, s0, recs[..n + 1], job, tolerance, total) == JobRun(Success(Bump(stats, w.result.value.status)), w.store)
    {
      assert recs[..n + 1][..n] == recs[..n];
      if w.result.Failure? {
        FailureIsFinal(rules, records, s0, recs, n + 1, job, tolerance, total);
      }
    }

    /** Once a prefix of the run has failed, the whole run ends with that failure. */
    static lemma {:induction false} FailureIsFinal(rules: seq<Rules.Rule>, records: seq<Record>, s0: Store,
                                                   recs: seq<Record>, n: nat,
                                                  job: ObjectId, tolerance: real, total: nat)
      requires n <= |recs|
      requires RunRecords(rules, records, s0, recs[..n], job, tolerance, total).result.Failure?
      ensures RunRecords(rules, records, s0, recs, job, tolerance, total) == RunRecords(rules, records, s0, recs[..n], job, tolerance, total)
      decreases |recs| - n
    {
      if n < |recs| {
        assert recs[..n + 1][..n] == recs[..n];
        FailureIsFinal(rules, records, s0, recs, n + 1, job, tolerance, total);
      } else {
        assert recs[..n] == recs;
      }
    }

    /** `getReconciliationStats` as intended: one count per status among the job's stored results (the `$group`
        stage), and `total` is the sum of the counts. It reads the store and changes nothing. This is the
        aggregation with the id cast to an ObjectId; with the string id the service passes, the `$match` selects
        nothing (`StatsAsWritten`, `StringIdCountsNothing`). */
    method GetReconciliationStats(job: ObjectId) returns (s: Stats)
      ensures s == StatsAsWritten(store, IdValue(job))
      ensures s.matched == CountStatus(store, job, MATCHED) && s.partial == CountStatus(store, job, PARTIAL)
      ensures s.unmatched == CountStatus(store, job, UNMATCHED) && s.duplicate == CountStatus(store, job, DUPLICATE)
      ensures s.total == Counted(s) == |JobKeys(store, job)|
    {
      var groups := [MATCHED, PARTIAL, UNMATCHED, DUPLICATE];
      s := Stats(0, 0, 0, 0, 0);
      for g := 0 to |groups|
        invariant s.total == Counted(s)
        invariant s.matched == (if g > 0 then CountStatus(store, job, MATCHED) else 0)
        invariant s.partial == (if g > 1 then CountStatus(store, job, PARTIAL) else 0)
        invariant s.unmatched == (if g > 2 then CountStatus(store, job, UNMATCHED) else 0)
        invariant s.duplicate == (if g > 3 then CountStatus(store, job, DUPLICATE) else 0)
      {
        var count := CountStatus(store, job, groups[g]);
        if count > 0 {
          s := match groups[g]
            case MATCHED => s.(matched := count)
            case PARTIAL => s.(partial := count)
            case UNMATCHED => s.(unmatched := count)
            case DUPLICATE => s.(duplicate := count);
          s := s.(total := s.total + count);
        }
      }
      BucketsPartition(store, job);
      CastIdCountsJob(store, job);
    }

    /** `updateReconciliationResult(resultId, userId, updates)`: `findByIdAndUpdate` on the result with that id;
        `None` (null) when there is none. */
    method UpdateReconciliationResult(resultId: nat, userId: ObjectId, status: Option<Status>, notes: Option<string>,
                                      now: int)
      returns (r: Option<MatchResult>)
      modifies this
      ensures r.None? <==> !exists k :: k in old(store).byRecord && old(store).byRecord[k].id == resultId
      ensures r.None? ==> store == old(store)
      ensures r.Some? ==>
                exists k :: && k in old(store).byRecord && old(store).byRecord[k].id == resultId
                            && r.value == Reviewed(old(store).byRecord[k], userId, status, notes, now)
                            && store == Store(old(store).byRecord[k := r.value], old(store).nextId)
    {
      if k :| k in store.byRecord && store.byRecord[k].id == resultId {
        var updated := Reviewed(store.byRecord[k], userId, status, notes, now);
        store := Store(store.byRecord[k := updated], store.nextId);
        r := Some(updated);
      } else {
        r := None;
      }
    }
  }
}
