/** Properties of the reconciliation engine, proved about the functions of `EngineSpec` (which the methods of
    `Reconciliation.ReconciliationService` compute). */
module EngineProperties {
  import opened Wrappers
  import opened Records
  import opened MatchResults
  import opened EngineSpec
  import Rules

  /** `s1` keeps every result of `s0` unchanged: results are only ever added. */
  ghost predicate Extends(s0: Store, s1: Store) {
    && s0.nextId <= s1.nextId
    && forall k :: k in s0.byRecord ==> k in s1.byRecord && s1.byRecord[k] == s0.byRecord[k]
  }

  /** `s1` extends `s0` and stays valid when `s0` is. */
  ghost predicate Grows(s0: Store, s1: Store) {
    Extends(s0, s1) && (Valid(s0) ==> Valid(s1))
  }

  lemma CreateGrows(store: Store, d: Draft)
    ensures Grows(store, Create(store, d).store)
  {
    if Valid(store) {
      CreatePreservesValid(store, d);
    }
  }

  lemma CreatePairGrows(store: Store, cand: Record, rec: Record, job: ObjectId, status: Status, ruleName: string,
                        reason: Reason, confidence: real, amountVariance: Option<real>)
    ensures Grows(store, CreatePair(store, cand, rec, job, status, ruleName, reason, confidence, amountVariance).store)
  {
    var d1 := Draft(cand.id, cand.uploadJobId, status, Some(rec.id), Some(ruleName), Some(reason), Some(confidence), amountVariance);
    var d2 := Draft(rec.id, job, status, Some(cand.id), Some(ruleName), Some(reason), Some(confidence), amountVariance);
    CreateGrows(store, d1);
    CreateGrows(Create(store, d1).store, d2);
  }

  lemma {:induction false} PartialScanGrows(cands: seq<Record>, store: Store, rec: Record, job: ObjectId, tolerance: real)
    ensures Grows(store, PartialScan(cands, store, rec, job, tolerance).store)
    decreases |cands|
  {
    if cands != [] {
      var m := cands[0];
      var diff := Abs(m.amount - rec.amount);
      if WithinTolerance(diff, rec.amount, tolerance) && !Claimed(store, m.id, {MATCHED, PARTIAL}) {
        var ratio := diff / rec.amount;
        assert PartialScan(cands, store, rec, job, tolerance)
            == CreatePair(store, m, rec, job, PARTIAL, Rules.PartialMatch, PartialReason(ratio), 1.0 - ratio, Some(diff));
        CreatePairGrows(store, m, rec, job, PARTIAL, Rules.PartialMatch, PartialReason(ratio), 1.0 - ratio, Some(diff));
      } else {
        assert PartialScan(cands, store, rec, job, tolerance) == PartialScan(cands[1..], store, rec, job, tolerance);
        PartialScanGrows(cands[1..], store, rec, job, tolerance);
      }
    }
  }

  lemma ApplyRuleGrows(name: string, records: seq<Record>, store: Store, rec: Record, job: ObjectId, tolerance: real)
    ensures Grows(store, ApplyRule(name, records, store, rec, job, tolerance).store)
  {
    if name == Rules.ExactMatch {
      var matches := ExactCandidates(records, rec, job);
      if |matches| > 0 && !Claimed(store, matches[0].id, {MATCHED}) {
        CreatePairGrows(store, matches[0], rec, job, MATCHED, Rules.ExactMatch, ExactReason, 1.0, None);
      }
    } else if name == Rules.PartialMatch {
      PartialScanGrows(PartialCandidates(records, rec, job), store, rec, job, tolerance);
    } else if name == Rules.DuplicateDetection {
      var dups := Siblings(records, rec, job);
      if |dups| > 0 {
        CreateGrows(store, Draft(rec.id, job, DUPLICATE, None, Some(Rules.DuplicateDetection),
                                 Some(DuplicateReason(|dups|)), Some(1.0), None));
      }
    }
  }

  lemma {:induction false} TryRulesGrows(rules: seq<Rules.Rule>, records: seq<Record>, store: Store, rec: Record,
                                         job: ObjectId, tolerance: real)
    ensures Grows(store, TryRules(rules, records, store, rec, job, tolerance).store)
    decreases |rules|
  {
    if rules != [] {
      var s := ApplyRule(rules[0].name, records, store, rec, job, tolerance);
      ApplyRuleGrows(rules[0].name, records, store, rec, job, tolerance);
      if !(s.result.Failure? || s.result.value.Some?) {
        TryRulesGrows(rules[1..], records, s.store, rec, job, tolerance);
      }
    }
  }

  /** Reconciling one record only adds results (never changes or removes one) and keeps the store valid. */
  lemma ReconcileRecordGrows(rules: seq<Rules.Rule>, records: seq<Record>, store: Store, rec: Record, job: ObjectId,
                             tolerance: real)
    ensures Grows(store, ReconcileRecord(rules, records, store, rec, job, tolerance).store)
  {
    if rec.id !in store.byRecord {
      var s := TryRules(rules, records, store, rec, job, tolerance);
      TryRulesGrows(rules, records, store, rec, job, tolerance);
      if s.result.Success? && s.result.value.None? {
        CreateGrows(s.store, UnmatchedDraft(rec, job));
      }
    }
  }

  /** A rule's result, when it has one, is the result stored under the current record. */
  ghost predicate StoredForRecord(s: RuleStep, rec: Record) {
    s.result.Success? && s.result.value.Some? ==>
      rec.id in s.store.byRecord && s.store.byRecord[rec.id] == s.result.value.value
  }

  lemma {:induction false} PartialScanStored(cands: seq<Record>, store: Store, rec: Record, job: ObjectId, tolerance: real)
    ensures StoredForRecord(PartialScan(cands, store, rec, job, tolerance), rec)
    decreases |cands|
  {
    if cands != [] {
      var m := cands[0];
      var diff := Abs(m.amount - rec.amount);
      if !(WithinTolerance(diff, rec.amount, tolerance) && !Claimed(store, m.id, {MATCHED, PARTIAL})) {
        assert PartialScan(cands, store, rec, job, tolerance) == PartialScan(cands[1..], store, rec, job, tolerance);
        PartialScanStored(cands[1..], store, rec, job, tolerance);
      }
    }
  }

  lemma {:induction false} TryRulesStored(rules: seq<Rules.Rule>, records: seq<Record>, store: Store, rec: Record,
                                          job: ObjectId, tolerance: real)
    ensures StoredForRecord(TryRules(rules, records, store, rec, job, tolerance), rec)
    decreases |rules|
  {
    if rules != [] {
      var name := rules[0].name;
      var s := ApplyRule(name, records, store, rec, job, tolerance);
      if name == Rules.PartialMatch {
        PartialScanStored(PartialCandidates(records, rec, job), store, rec, job, tolerance);
      }
      if !(s.result.Failure? || s.result.value.Some?) {
        TryRulesStored(rules[1..], records, s.store, rec, job, tolerance);
      }
    }
  }

  /** The result `reconcileRecord` returns is the one stored for the record: at most one result per record,
      and the returned one is it. */
  lemma ReconcileRecordStored(rules: seq<Rules.Rule>, records: seq<Record>, store: Store, rec: Record, job: ObjectId,
                              tolerance: real)
    ensures var w := ReconcileRecord(rules, records, store, rec, job, tolerance);
            w.result.Success? ==> rec.id in w.store.byRecord && w.store.byRecord[rec.id] == w.result.value
  {
    if rec.id !in store.byRecord {
      TryRulesStored(rules, records, store, rec, job, tolerance);
    }
  }

  /** Every record of `recs` holds a result in `store`. */
  ghost predicate Resolved(recs: seq<Record>, store: Store) {
    forall r :: r in recs ==> r.id in store.byRecord
  }

  /** The counters obtained by adding one, for each record of `recs`, to the counter its stored result's
      status names. */
  function Tally(recs: seq<Record>, store: Store, total: nat): Stats
    requires Resolved(recs, store)
    decreases |recs|
  {
    if recs == [] then Stats(total, 0, 0, 0, 0)
    else
      var prefix := recs[..|recs| - 1];
      assert forall r :: r in prefix ==> r in recs;
      Bump(Tally(prefix, store, total), store.byRecord[recs[|recs| - 1].id].status)
  }

  lemma {:induction false} TallyStable(recs: seq<Record>, s0: Store, s1: Store, total: nat)
    requires Resolved(recs, s0) && Extends(s0, s1)
    ensures Resolved(recs, s1) && Tally(recs, s1, total) == Tally(recs, s0, total)
    decreases |recs|
  {
    if recs != [] {
      var prefix := recs[..|recs| - 1];
      assert forall r :: r in prefix ==> r in recs;
      TallyStable(prefix, s0, s1, total);
    }
  }

  /** A successful run over `recs` leaves every one of them with a stored result, only adds results, and its
      counters are exactly the tally of those results' statuses: each record adds one to the counter its
      result's status names. */
  lemma {:induction false} RunRecordsTally(rules: seq<Rules.Rule>, records: seq<Record>, s0: Store,
                                           recs: seq<Record>, job: ObjectId, tolerance: real, total: nat)
    ensures var run := RunRecords(rules, records, s0, recs, job, tolerance, total);
            && Grows(s0, run.store)
            && (run.result.Success? ==> Resolved(recs, run.store) && run.result.value == Tally(recs, run.store, total))
    decreases |recs|
  {
    if recs != [] {
      var prefix := recs[..|recs| - 1];
      var last := recs[|recs| - 1];
      var prev := RunRecords(rules, records, s0, prefix, job, tolerance, total);
      RunRecordsTally(rules, records, s0, prefix, job, tolerance, total);
      if prev.result.Success? {
        var w := ReconcileRecord(rules, records, prev.store, last, job, tolerance);
        ReconcileRecordGrows(rules, records, prev.store, last, job, tolerance);
        ReconcileRecordStored(rules, records, prev.store, last, job, tolerance);
        if w.result.Success? {
          TallyStable(prefix, prev.store, w.store, total);
          assert forall r :: r in recs ==> r in prefix || r == last;
        }
      }
    }
  }

  /** On a store where every record of `recs` already has a result, the run changes nothing and reports
      the tally of the stored statuses. */
  lemma {:induction false} RunRecordsResolved(rules: seq<Rules.Rule>, records: seq<Record>, store: Store,
                                              recs: seq<Record>, job: ObjectId, tolerance: real, total: nat)
    requires Resolved(recs, store)
    ensures RunRecords(rules, records, store, recs, job, tolerance, total) == JobRun(Success(Tally(recs, store, total)), store)
    decreases |recs|
  {
    if recs != [] {
      var prefix := recs[..|recs| - 1];
      assert forall r :: r in prefix ==> r in recs;
      RunRecordsResolved(rules, records, store, prefix, job, tolerance, total);
      var last := recs[|recs| - 1];
      assert last in recs;
      assert ReconcileRecord(rules, records, store, last, job, tolerance) == Write(Success(store.byRecord[last.id]), store);
    }
  }

  /** Counter arithmetic of `reconcileUploadJob`: a job without records yields all-zero counters and leaves
      the store as it was; a successful run reports `total` equal to the number of the job's records, the
      four status counters sum to it, and each counter is the number of the job's records whose stored
      result has that status. */
  lemma RunJobCounts(rules: seq<Rules.Rule>, records: seq<Record>, store: Store, job: ObjectId, config: Config)
    ensures var recs := Select(records, ByJob(job));
            var run := RunJob(rules, records, store, job, config);
            && (|recs| == 0 ==> run == JobRun(Success(Stats(0, 0, 0, 0, 0)), store))
            && Grows(store, run.store)
            && (run.result.Success? ==>
                  && Resolved(recs, run.store)
                  && run.result.value == Tally(recs, run.store, |recs|)
                  && run.result.value.total == |recs|
                  && Counted(run.result.value) == |recs|)
  {
    var recs := Select(records, ByJob(job));
    if |recs| > 0 {
      RunRecordsTally(rules, records, store, recs, job, config.partialMatchVariance, |recs|);
      var run := RunJob(rules, records, store, job, config);
      if run.result.Success? {
        TallyCounts(recs, run.store, |recs|);
      }
    }
  }

  lemma {:induction false} TallyCounts(recs: seq<Record>, store: Store, total: nat)
    requires Resolved(recs, store)
    ensures Tally(recs, store, total).total == total && Counted(Tally(recs, store, total)) == |recs|
    decreases |recs|
  {
    if recs != [] {
      var prefix := recs[..|recs| - 1];
      assert forall r :: r in prefix ==> r in recs;
      TallyCounts(prefix, store, total);
    }
  }

  /** Idempotence: re-running a successful reconciliation on the store it produced creates nothing, changes
      nothing and reports the same counters. */
  lemma RerunIsIdempotent(rules: seq<Rules.Rule>, records: seq<Record>, s0: Store, job: ObjectId, config: Config)
    requires RunJob(rules, records, s0, job, config).result.Success?
    ensures var first := RunJob(rules, records, s0, job, config);
            RunJob(rules, records, first.store, job, config) == first
  {
    var recs := Select(records, ByJob(job));
    if |recs| > 0 {
      var first := RunJob(rules, records, s0, job, config);
      RunRecordsTally(rules, records, s0, recs, job, config.partialMatchVariance, |recs|);
      RunRecordsResolved(rules, records, first.store, recs, job, config.partialMatchVariance, |recs|);
    }
  }

  /** A result without a counterpart keeps every link mutual. */
  lemma CreateUnlinkedKeepsSymmetric(store: Store, d: Draft)
    requires Symmetric(store) && d.matchedWith.None?
    ensures Symmetric(Create(store, d).store)
  {
    var s1 := Create(store, d).store;
    forall k | k in s1.byRecord && s1.byRecord[k].matchedWith.Some?
      ensures Linked(s1, k, s1.byRecord[k].matchedWith.value)
    {
      assert k in store.byRecord;
      assert Linked(store, k, store.byRecord[k].matchedWith.value);
    }
  }

  /** The two creates of a match either both happen or leave the store as it was, so links stay mutual. */
  lemma CreatePairKeepsSymmetric(store: Store, cand: Record, rec: Record, job: ObjectId, status: Status, ruleName: string,
                                 reason: Reason, confidence: real, amountVariance: Option<real>)
    requires Symmetric(store) && rec.id !in store.byRecord && cand.id != rec.id
    ensures Symmetric(CreatePair(store, cand, rec, job, status, ruleName, reason, confidence, amountVariance).store)
  {
    var d1 := Draft(cand.id, cand.uploadJobId, status, Some(rec.id), Some(ruleName), Some(reason), Some(confidence), amountVariance);
    var d2 := Draft(rec.id, job, status, Some(cand.id), Some(ruleName), Some(reason), Some(confidence), amountVariance);
    var w1 := Create(store, d1);
    if w1.result.Success? {
      var w2 := Create(w1.store, d2);
      assert w2.result.Success?;
      var s2 := w2.store;
      forall k | k in s2.byRecord && s2.byRecord[k].matchedWith.Some?
        ensures Linked(s2, k, s2.byRecord[k].matchedWith.value)
      {
        if k != cand.id && k != rec.id {
          assert Linked(store, k, store.byRecord[k].matchedWith.value);
        }
      }
    }
  }

  /** Candidates from other upload jobs are other records when record ids are unique. */
  lemma OtherJobOtherRecord(records: seq<Record>, rec: Record, cand: Record, job: ObjectId)
    requires UniqueIds(records) && rec in records && rec.uploadJobId == job
    requires cand in records && cand.uploadJobId != job
    ensures cand.id != rec.id
  {
    var i :| 0 <= i < |records| && records[i] == rec;
    var j :| 0 <= j < |records| && records[j] == cand;
    assert i != j;
  }

  /** The record being reconciled belongs to the store and to the job, and record ids are unique. */
  ghost predicate InJob(records: seq<Record>, rec: Record, job: ObjectId) {
    UniqueIds(records) && rec in records && rec.uploadJobId == job
  }

  lemma {:induction false} PartialScanKeepsSymmetric(records: seq<Record>, cands: seq<Record>, store: Store, rec: Record,
                                                    job: ObjectId, tolerance: real)
    requires InJob(records, rec, job) && Symmetric(store) && rec.id !in store.byRecord
    requires forall c :: c in cands ==> c in records && c.uploadJobId != job
    ensures Symmetric(PartialScan(cands, store, rec, job, tolerance).store)
    decreases |cands|
  {
    if cands != [] {
      var m := cands[0];
      var diff := Abs(m.amount - rec.amount);
      if WithinTolerance(diff, rec.amount, tolerance) && !Claimed(store, m.id, {MATCHED, PARTIAL}) {
        var ratio := diff / rec.amount;
        assert PartialScan(cands, store, rec, job, tolerance)
            == CreatePair(store, m, rec, job, PARTIAL, Rules.PartialMatch, PartialReason(ratio), 1.0 - ratio, Some(diff));
        OtherJobOtherRecord(records, rec, m, job);
        CreatePairKeepsSymmetric(store, m, rec, job, PARTIAL, Rules.PartialMatch, PartialReason(ratio), 1.0 - ratio, Some(diff));
      } else {
        assert PartialScan(cands, store, rec, job, tolerance) == PartialScan(cands[1..], store, rec, job, tolerance);
        assert forall c :: c in cands[1..] ==> c in cands;
        PartialScanKeepsSymmetric(records, cands[1..], store, rec, job, tolerance);
      }
    }
  }

  lemma {:induction false} PartialScanNoResultNoChange(cands: seq<Record>, store: Store, rec: Record, job: ObjectId,
                                                       tolerance: real)
    ensures var s := PartialScan(cands, store, rec, job, tolerance);
            s.result == Success(None) ==> s.store == store
    decreases |cands|
  {
    if cands != [] {
      var m := cands[0];
      var diff := Abs(m.amount - rec.amount);
      if !(WithinTolerance(diff, rec.amount, tolerance) && !Claimed(store, m.id, {MATCHED, PARTIAL})) {
        assert PartialScan(cands, store, rec, job, tolerance) == PartialScan(cands[1..], store, rec, job, tolerance);
        PartialScanNoResultNoChange(cands[1..], store, rec, job, tolerance);
      }
    }
  }

  /** A rule that yields nothing changes nothing. */
  lemma ApplyRuleNoResultNoChange(name: string, records: seq<Record>, store: Store, rec: Record, job: ObjectId,
                                  tolerance: real)
    ensures var s := ApplyRule(name, records, store, rec, job, tolerance);
            s.result == Success(None) ==> s.store == store
  {
    if name == Rules.PartialMatch {
      PartialScanNoResultNoChange(PartialCandidates(records, rec, job), store, rec, job, tolerance);
    }
  }

  lemma ApplyRuleKeepsSymmetric(name: string, records: seq<Record>, store: Store, rec: Record, job: ObjectId,
                                tolerance: real)
    requires InJob(records, rec, job) && Symmetric(store) && rec.id !in store.byRecord
    ensures Symmetric(ApplyRule(name, records, store, rec, job, tolerance).store)
  {
    if name == Rules.ExactMatch {
      var matches := ExactCandidates(records, rec, job);
      if |matches| > 0 && !Claimed(store, matches[0].id, {MATCHED}) {
        assert matches[0] in matches;
        OtherJobOtherRecord(records, rec, matches[0], job);
        CreatePairKeepsSymmetric(store, matches[0], rec, job, MATCHED, Rules.ExactMatch, ExactReason, 1.0, None);
      }
    } else if name == Rules.PartialMatch {
      PartialScanKeepsSymmetric(records, PartialCandidates(records, rec, job), store, rec, job, tolerance);
    } else if name == Rules.DuplicateDetection {
      var dups := Siblings(records, rec, job);
      if |dups| > 0 {
        CreateUnlinkedKeepsSymmetric(store, Draft(rec.id, job, DUPLICATE, None, Some(Rules.DuplicateDetection),
                                                  Some(DuplicateReason(|dups|)), Some(1.0), None));
      }
    }
  }

  lemma {:induction false} TryRulesKeepsSymmetric(rules: seq<Rules.Rule>, records: seq<Record>, store: Store, rec: Record,
                                                 job: ObjectId, tolerance: real)
    requires InJob(records, rec, job) && Symmetric(store) && rec.id !in store.byRecord
    ensures var s := TryRules(rules, records, store, rec, job, tolerance);
            Symmetric(s.store) && (s.result == Success(None) ==> s.store == store)
    decreases |rules|
  {
    if rules != [] {
      var s := ApplyRule(rules[0].name, records, store, rec, job, tolerance);
      ApplyRuleKeepsSymmetric(rules[0].name, records, store, rec, job, tolerance);
      ApplyRuleNoResultNoChange(rules[0].name, records, store, rec, job, tolerance);
      if !(s.result.Failure? || s.result.value.Some?) {
        TryRulesKeepsSymmetric(rules[1..], records, s.store, rec, job, tolerance);
      }
    }
  }

  lemma ReconcileRecordKeepsSymmetric(rules: seq<Rules.Rule>, records: seq<Record>, store: Store, rec: Record,
                                      job: ObjectId, tolerance: real)
    requires InJob(records, rec, job) && Symmetric(store)
    ensures Symmetric(ReconcileRecord(rules, records, store, rec, job, tolerance).store)
  {
    if rec.id !in store.byRecord {
      var s := TryRules(rules, records, store, rec, job, tolerance);
      TryRulesKeepsSymmetric(rules, records, store, rec, job, tolerance);
      if s.result.Success? && s.result.value.None? {
        CreateUnlinkedKeepsSymmetric(s.store, UnmatchedDraft(rec, job));
      }
    }
  }

  lemma {:induction false} RunRecordsKeepsSymmetric(rules: seq<Rules.Rule>, records: seq<Record>, s0: Store,
                                                    recs: seq<Record>, job: ObjectId,
                                                   tolerance: real, total: nat)
    requires UniqueIds(records) && Symmetric(s0)
    requires forall r :: r in recs ==> r in records && r.uploadJobId == job
    ensures Symmetric(RunRecords(rules, records, s0, recs, job, tolerance, total).store)
    decreases |recs|
  {
    if recs != [] {
      var prefix := recs[..|recs| - 1];
      assert forall r :: r in prefix ==> r in recs;
      var last := recs[|recs| - 1];
      assert last in recs;
      RunRecordsKeepsSymmetric(rules, records, s0, prefix, job, tolerance, total);
      var prev := RunRecords(rules, records, s0, prefix, job, tolerance, total);
      RunRecordsLastStore(rules, records, s0, recs, job, tolerance, total);
      if prev.result.Success? {
        ReconcileRecordKeepsSymmetric(rules, records, prev.store, last, job, tolerance);
      }
    }
  }

  /** Pairwise symmetry: when record ids are unique, a run keeps every `matchedWith` link mutual (both
      results of a match point at each other and agree on rule, reason and confidence), whether it
      succeeds or aborts part-way. */
  lemma RunJobKeepsSymmetric(rules: seq<Rules.Rule>, records: seq<Record>, store: Store, job: ObjectId, config: Config)
    requires UniqueIds(records) && Symmetric(store)
    ensures Symmetric(RunJob(rules, records, store, job, config).store)
  {
    var recs := Select(records, ByJob(job));
    RunRecordsKeepsSymmetric(rules, records, store, recs, job, config.partialMatchVariance, |recs|);
  }

  /** DUPLICATE_DETECTION, then the UNMATCHED fallback. */
  function FromDuplicate(records: seq<Record>, store: Store, rec: Record, job: ObjectId): Write {
    var d := DuplicateDetection(records, store, rec, job);
    if d.result.Failure? then Write(Failure(d.result.error), d.store)
    else if d.result.value.Some? then Write(Success(d.result.value.value), d.store)
    else Create(d.store, UnmatchedDraft(rec, job))
  }

  /** PARTIAL_MATCH, then what follows it. */
  function FromPartial(records: seq<Record>, store: Store, rec: Record, job: ObjectId, tolerance: real): Write {
    var p := PartialMatch(records, store, rec, job, tolerance);
    if p.result.Failure? then Write(Failure(p.result.error), p.store)
    else if p.result.value.Some? then Write(Success(p.result.value.value), p.store)
    else FromDuplicate(records, p.store, rec, job)
  }

  /** EXACT_MATCH, then PARTIAL_MATCH, then DUPLICATE_DETECTION, then the UNMATCHED fallback, each on the
      store the previous one left; the first rule with a result (or an error) decides. */
  function Cascade(records: seq<Record>, store: Store, rec: Record, job: ObjectId, tolerance: real): Write {
    var e := ExactMatch(records, store, rec, job);
    if e.result.Failure? then Write(Failure(e.result.error), e.store)
    else if e.result.value.Some? then Write(Success(e.result.value.value), e.store)
    else FromPartial(records, e.store, rec, job, tolerance)
  }

  lemma RulesThenFallbackOfThree(rules: seq<Rules.Rule>, records: seq<Record>, store: Store, rec: Record,
                                 job: ObjectId, tolerance: real)
    requires |rules| == 3
    requires rules[0].name == Rules.ExactMatch && rules[1].name == Rules.PartialMatch && rules[2].name == Rules.DuplicateDetection
    ensures RulesThenFallback(rules, records, store, rec, job, tolerance) == Cascade(records, store, rec, job, tolerance)
  {
    var r1, r2 := rules[1..], rules[1..][1..];
    assert r2[1..] == [];
    var e := ExactMatch(records, store, rec, job);
    if e.result.Success? && e.result.value.None? {
      var p := PartialMatch(records, e.store, rec, job, tolerance);
      assert TryRules(rules, records, store, rec, job, tolerance) == TryRules(r1, records, e.store, rec, job, tolerance);
      if p.result.Success? && p.result.value.None? {
        assert TryRules(r1, records, e.store, rec, job, tolerance) == TryRules(r2, records, p.store, rec, job, tolerance);
      }
    }
  }

  /** Precedence: for a record without a result, `reconcileRecord` is EXACT_MATCH, else PARTIAL_MATCH, else
      DUPLICATE_DETECTION, else UNMATCHED; the first rule with a result (or an error) decides. */
  lemma RulesInPriorityOrder(records: seq<Record>, store: Store, rec: Record, job: ObjectId, tolerance: real)
    requires rec.id !in store.byRecord
    ensures ReconcileRecord(Rules.ActiveRules(), records, store, rec, job, tolerance) == Cascade(records, store, rec, job, tolerance)
  {
    Rules.ShippedOrder();
    RulesThenFallbackOfThree(Rules.ActiveRules(), records, store, rec, job, tolerance);
  }

  /** What the two creates of a match do. Both happen exactly when the confidence is valid and neither record
      has a result yet (and they are different records); they then store a result for the counterpart
      (under its own upload job, pointing at `rec`) and one for `rec` (under `job`, pointing back), with the
      same status, rule, reason, confidence and variance. When the counterpart already has a result the
      first create fails on the unique index and nothing is stored. */
  lemma CreatePairOutcome(store: Store, cand: Record, rec: Record, job: ObjectId, status: Status, ruleName: string,
                          reason: Reason, confidence: real, amountVariance: Option<real>)
    ensures var s := CreatePair(store, cand, rec, job, status, ruleName, reason, confidence, amountVariance);
            && (s.result.Success? <==>
                  ConfidenceOk(confidence) && cand.id !in store.byRecord && rec.id !in store.byRecord && cand.id != rec.id)
            && (s.result.Success? ==>
                  && s.result.value.Some?
                  && var m := s.result.value.value;
                     && cand.id in s.store.byRecord
                     && var partner := s.store.byRecord[cand.id];
                        && s.store.byRecord == store.byRecord[cand.id := partner][rec.id := m]
                        && m.recordId == rec.id && m.uploadJobId == job && m.matchedWith == Some(cand.id)
                        && partner.recordId == cand.id && partner.uploadJobId == cand.uploadJobId && partner.matchedWith == Some(rec.id)
                        && m.status == status && partner.status == status
                        && m.ruleName == Some(ruleName) && partner.ruleName == Some(ruleName)
                        && m.reason == Some(reason) && partner.reason == Some(reason)
                        && m.confidence == confidence && partner.confidence == confidence
                        && m.amountVariance == amountVariance.GetOr(0.0) && partner.amountVariance == amountVariance.GetOr(0.0)
                        && !m.manuallyReviewed && !partner.manuallyReviewed)
            && (!ConfidenceOk(confidence) ==> s == RuleStep(Failure(ConfidenceOutOfRange(cand.id, confidence)), store))
            && (ConfidenceOk(confidence) && cand.id in store.byRecord ==> s == RuleStep(Failure(DuplicateKey(cand.id)), store))
  {
    var d1 := Draft(cand.id, cand.uploadJobId, status, Some(rec.id), Some(ruleName), Some(reason), Some(confidence), amountVariance);
    var w1 := Create(store, d1);
    if w1.result.Success? {
      var d2 := Draft(rec.id, job, status, Some(cand.id), Some(ruleName), Some(reason), Some(confidence), amountVariance);
      var w2 := Create(w1.store, d2);
      if w2.result.Success? {
        assert w2.store.byRecord[cand.id] == w1.result.value;
      }
    }
  }

  /** EXACT_MATCH looks only at the first candidate (same transaction id and amount, another upload job).
      No candidate, or a first candidate already MATCHED: no result and no change. A first candidate
      holding any other result: the create fails on the unique index and the error ends the run (the claim
      check is incomplete). Otherwise both records are paired as MATCHED with confidence 1. */
  lemma ExactMatchOutcome(records: seq<Record>, store: Store, rec: Record, job: ObjectId)
    requires rec.id !in store.byRecord
    ensures var c := ExactCandidates(records, rec, job);
            var s := ExactMatch(records, store, rec, job);
            && (forall x :: x in c ==> x in records && x.transactionId == rec.transactionId && x.amount == rec.amount && x.uploadJobId != job)
            && |c| <= ExactLimit
            && (|c| == 0 || Claimed(store, c[0].id, {MATCHED}) ==> s == RuleStep(Success(None), store))
            && (|c| > 0 && c[0].id in store.byRecord && !Claimed(store, c[0].id, {MATCHED}) ==>
                  s == RuleStep(Failure(DuplicateKey(c[0].id)), store))
            && (|c| > 0 && c[0].id !in store.byRecord && c[0].id != rec.id ==>
                  s == CreatePair(store, c[0], rec, job, MATCHED, Rules.ExactMatch, ExactReason, 1.0, None)
                  && s.result.Success? && s.result.value.Some?)
  {
    var c := ExactCandidates(records, rec, job);
    if |c| > 0 {
      CreatePairOutcome(store, c[0], rec, job, MATCHED, Rules.ExactMatch, ExactReason, 1.0, None);
    }
  }

  /** A candidate PARTIAL_MATCH pairs with: within tolerance of the record's amount and not yet MATCHED or
      PARTIAL. */
  predicate Qualifies(c: Record, store: Store, rec: Record, tolerance: real) {
    WithinTolerance(Abs(c.amount - rec.amount), rec.amount, tolerance) && !Claimed(store, c.id, {MATCHED, PARTIAL})
  }

  /** With no qualifying candidate the candidate loop yields nothing and changes nothing. */
  lemma {:induction false} PartialScanNone(cands: seq<Record>, store: Store, rec: Record, job: ObjectId, tolerance: real)
    requires forall c :: c in cands ==> !Qualifies(c, store, rec, tolerance)
    ensures PartialScan(cands, store, rec, job, tolerance) == RuleStep(Success(None), store)
    decreases |cands|
  {
    if cands != [] {
      assert cands[0] in cands;
      assert PartialScan(cands, store, rec, job, tolerance) == PartialScan(cands[1..], store, rec, job, tolerance);
      assert forall c :: c in cands[1..] ==> c in cands;
      PartialScanNone(cands[1..], store, rec, job, tolerance);
    }
  }

  /** The candidate loop pairs with the first qualifying candidate, in order, with confidence one minus the
      ratio and the absolute difference as variance. */
  lemma {:induction false} PartialScanFirst(cands: seq<Record>, i: nat, store: Store, rec: Record, job: ObjectId,
                                            tolerance: real)
    requires i < |cands| && Qualifies(cands[i], store, rec, tolerance)
    requires forall j :: 0 <= j < i ==> !Qualifies(cands[j], store, rec, tolerance)
    ensures var diff := Abs(cands[i].amount - rec.amount);
            PartialScan(cands, store, rec, job, tolerance)
              == CreatePair(store, cands[i], rec, job, PARTIAL, Rules.PartialMatch, PartialReason(diff / rec.amount),
                            1.0 - diff / rec.amount, Some(diff))
    decreases i
  {
    if i > 0 {
      assert !Qualifies(cands[0], store, rec, tolerance);
      assert PartialScan(cands, store, rec, job, tolerance) == PartialScan(cands[1..], store, rec, job, tolerance);
      assert forall j :: 0 <= j < i - 1 ==> cands[1..][j] == cands[j + 1];
      PartialScanFirst(cands[1..], i - 1, store, rec, job, tolerance);
    }
  }

  /** A record with amount zero never partially matches: the ratio is `Infinity` or `NaN` in JavaScript and
      fails the tolerance test. */
  lemma ZeroAmountNeverPartial(records: seq<Record>, store: Store, rec: Record, job: ObjectId, tolerance: real)
    requires rec.amount == 0.0
    ensures PartialMatch(records, store, rec, job, tolerance) == RuleStep(Success(None), store)
  {
    PartialScanNone(PartialCandidates(records, rec, job), store, rec, job, tolerance);
  }

  /** A negative amount makes the ratio non-positive, so any candidate passes the tolerance test; when the
      amounts differ the confidence `1 - ratio` exceeds 1, the schema rejects the first create, and the
      error ends the run. */
  lemma NegativeAmountAborts(records: seq<Record>, store: Store, rec: Record, job: ObjectId, tolerance: real)
    requires rec.amount < 0.0 && tolerance >= 0.0
    requires var c := PartialCandidates(records, rec, job);
             |c| > 0 && c[0].amount != rec.amount && !Claimed(store, c[0].id, {MATCHED, PARTIAL})
    ensures var c := PartialCandidates(records, rec, job);
            var ratio := Abs(c[0].amount - rec.amount) / rec.amount;
            PartialMatch(records, store, rec, job, tolerance)
              == RuleStep(Failure(ConfidenceOutOfRange(c[0].id, 1.0 - ratio)), store)
  {
    var c := PartialCandidates(records, rec, job);
    var diff := Abs(c[0].amount - rec.amount);
    assert diff / rec.amount < 0.0;
    PartialScanFirst(c, 0, store, rec, job, tolerance);
    CreatePairOutcome(store, c[0], rec, job, PARTIAL, Rules.PartialMatch, PartialReason(diff / rec.amount),
                      1.0 - diff / rec.amount, Some(diff));
  }

  /** Another record of the same upload job with the same transaction id. */
  predicate HasSibling(records: seq<Record>, rec: Record, job: ObjectId) {
    exists r :: r in records && r.transactionId == rec.transactionId && r.uploadJobId == job && r.id != rec.id
  }

  /** DUPLICATE_DETECTION fires exactly when the record has a sibling in its upload job, whatever results
      the siblings hold (it queries records, not results), and it marks only the current record: DUPLICATE,
      no counterpart, confidence 1. */
  lemma DuplicateOutcome(records: seq<Record>, store: Store, rec: Record, job: ObjectId)
    requires rec.id !in store.byRecord
    ensures var s := DuplicateDetection(records, store, rec, job);
            && (!HasSibling(records, rec, job) ==> s == RuleStep(Success(None), store))
            && (HasSibling(records, rec, job) ==>
                  && s.result.Success? && s.result.value.Some?
                  && var m := s.result.value.value;
                     && s.store.byRecord == store.byRecord[rec.id := m]
                     && m.recordId == rec.id && m.uploadJobId == job && m.status == DUPLICATE
                     && m.matchedWith.None? && m.confidence == 1.0 && m.ruleName == Some(Rules.DuplicateDetection)
                     && m.reason == Some(DuplicateReason(|Siblings(records, rec, job)|))
                     && 0 < |Siblings(records, rec, job)| <= DuplicateLimit)
  {
    SiblingsIff(records, rec, job);
  }

  lemma SiblingsIff(records: seq<Record>, rec: Record, job: ObjectId)
    ensures HasSibling(records, rec, job) <==> |Siblings(records, rec, job)| > 0
  {
    var all := Select(records, SiblingDuplicates(rec.transactionId, job, rec.id));
    if |all| > 0 {
      assert all[0] in all;
    }
    if HasSibling(records, rec, job) {
      var r :| r in records && r.transactionId == rec.transactionId && r.uploadJobId == job && r.id != rec.id;
      assert r in all;
    }
  }

  /** When no rule fires, `reconcileRecord` stores an UNMATCHED result with rule name 'UNMATCHED', the
      no-match reason, no counterpart and the default confidence 1. */
  lemma UnmatchedWhenNoRuleFires(records: seq<Record>, store: Store, rec: Record, job: ObjectId, tolerance: real)
    requires rec.id !in store.byRecord
    requires ExactMatch(records, store, rec, job).result == Success(None)
    requires PartialMatch(records, store, rec, job, tolerance).result == Success(None)
    requires DuplicateDetection(records, store, rec, job).result == Success(None)
    ensures var w := ReconcileRecord(Rules.ActiveRules(), records, store, rec, job, tolerance);
            && w.result.Success?
            && var m := w.result.value;
               && w.store.byRecord == store.byRecord[rec.id := m]
               && m.recordId == rec.id && m.uploadJobId == job && m.status == UNMATCHED
               && m.ruleName == Some("UNMATCHED") && m.reason == Some(NoMatchReason)
               && m.matchedWith.None? && m.confidence == 1.0
  {
    RulesInPriorityOrder(records, store, rec, job, tolerance);
    CascadeFallsThrough(records, store, rec, job, tolerance);
  }

  /** With no rule yielding a result, the cascade ends in the UNMATCHED create on the unchanged store. */
  lemma CascadeFallsThrough(records: seq<Record>, store: Store, rec: Record, job: ObjectId, tolerance: real)
    requires ExactMatch(records, store, rec, job).result == Success(None)
    requires PartialMatch(records, store, rec, job, tolerance).result == Success(None)
    requires DuplicateDetection(records, store, rec, job).result == Success(None)
    ensures Cascade(records, store, rec, job, tolerance) == Create(store, UnmatchedDraft(rec, job))
  {
    ApplyRuleNoResultNoChange(Rules.ExactMatch, records, store, rec, job, tolerance);
    ApplyRuleNoResultNoChange(Rules.PartialMatch, records, store, rec, job, tolerance);
    ApplyRuleNoResultNoChange(Rules.DuplicateDetection, records, store, rec, job, tolerance);
  }

  /** A rule whose name has no `case` is skipped: removing it changes nothing. */
  lemma {:induction false} UnknownRuleSkipped(pre: seq<Rules.Rule>, x: Rules.Rule, post: seq<Rules.Rule>,
                                              records: seq<Record>,
                                              store: Store, rec: Record, job: ObjectId, tolerance: real)
    requires x.name != Rules.ExactMatch && x.name != Rules.PartialMatch && x.name != Rules.DuplicateDetection
    ensures TryRules(pre + [x] + post, records, store, rec, job, tolerance) == TryRules(pre + post, records, store, rec, job, tolerance)
    decreases |pre|
  {
    if pre == [] {
      assert pre + [x] + post == [x] + post;
      assert ([x] + post)[1..] == post;
      assert pre + post == post;
    } else {
      assert (pre + [x] + post)[0] == pre[0] && (pre + post)[0] == pre[0];
      assert (pre + [x] + post)[1..] == pre[1..] + [x] + post;
      assert (pre + post)[1..] == pre[1..] + post;
      var s := ApplyRule(pre[0].name, records, store, rec, job, tolerance);
      if !(s.result.Failure? || s.result.value.Some?) {
        UnknownRuleSkipped(pre[1..], x, post, records, s.store, rec, job, tolerance);
      }
    }
  }

  /** The engine reads only the rules' names: priorities aside, the table's match criteria (its
      `amountVariance` among them) have no effect; the tolerance comes from the configuration. */
  lemma {:induction false} OnlyRuleNamesMatter(rules1: seq<Rules.Rule>, rules2: seq<Rules.Rule>, records: seq<Record>,
                                               store: Store, rec: Record, job: ObjectId, tolerance: real)
    requires |rules1| == |rules2| && forall i :: 0 <= i < |rules1| ==> rules1[i].name == rules2[i].name
    ensures TryRules(rules1, records, store, rec, job, tolerance) == TryRules(rules2, records, store, rec, job, tolerance)
    decreases |rules1|
  {
    if rules1 != [] {
      var s := ApplyRule(rules1[0].name, records, store, rec, job, tolerance);
      if !(s.result.Failure? || s.result.value.Some?) {
        OnlyRuleNamesMatter(rules1[1..], rules2[1..], records, s.store, rec, job, tolerance);
      }
    }
  }
}
