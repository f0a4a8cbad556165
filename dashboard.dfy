/** The dashboard of backend/src/controllers/dashboard.controller.ts: upload counts, reconciliation totals
    summed over completed jobs, and the most recent jobs, all restricted to the caller's own uploads unless
    the caller is an administrator. */
module Dashboard {
  import opened Wrappers
  import Records
  import opened Uploads
  import MatchResults

  type Stats = MatchResults.Stats
  type ObjectId = Records.ObjectId

  /** Page size of the four job queries behind the summary. */
  const SummaryPageSize: int := 1000

  /** Number of jobs the summary shows as recent. */
  const RecentCount: nat := 10

  /** The filter built from the caller: an ADMIN sees every job, anybody else only the jobs they uploaded. */
  function OwnerFilter(userId: ObjectId, role: string): (f: JobFilter)
    ensures f.status.None?
    ensures f.uploadedBy.None? <==> role == "ADMIN"
    ensures role != "ADMIN" ==> f.uploadedBy == Some(userId)
  {
    if role != "ADMIN" then JobFilter(Some(userId), None) else JobFilter(None, None)
  }

  /** `{ ...uploadFilters, status }`. */
  function WithStatus(f: JobFilter, s: JobStatus): JobFilter {
    f.(status := Some(s))
  }

  /** Field-wise sum of two stats. */
  function Add(a: Stats, b: Stats): Stats {
    MatchResults.Stats(a.total + b.total, a.matched + b.matched, a.partial + b.partial,
                       a.unmatched + b.unmatched, a.duplicate + b.duplicate)
  }

  /** The reconciliation totals over `jobs`: each job whose stats lookup succeeds adds its stats, and a job whose
      lookup throws (`None`) is skipped. */
  function SumStats(jobs: seq<UploadJob>, statsFor: ObjectId -> Option<Stats>): Stats {
    if jobs == [] then MatchResults.Stats(0, 0, 0, 0, 0)
    else
      var prev := SumStats(jobs[..|jobs| - 1], statsFor);
      match statsFor(jobs[|jobs| - 1].id)
      case Some(st) => Add(prev, st)
      case None => prev
  }

  /** Totals over two runs of jobs add up. */
  lemma {:induction false} SumStatsAppend(a: seq<UploadJob>, b: seq<UploadJob>, statsFor: ObjectId -> Option<Stats>)
    ensures SumStats(a + b, statsFor) == Add(SumStats(a, statsFor), SumStats(b, statsFor))
    decreases |b|
  {
    if b == [] {
      assert a + b == a;
    } else {
      var b' := b[..|b| - 1];
      assert (a + b)[..|a + b| - 1] == a + b';
      SumStatsAppend(a, b', statsFor);
    }
  }

  /** A job whose lookup fails contributes nothing: removing it leaves the totals as they are. */
  lemma SkippedJobAddsNothing(a: seq<UploadJob>, j: UploadJob, b: seq<UploadJob>, statsFor: ObjectId -> Option<Stats>)
    requires statsFor(j.id).None?
    ensures SumStats(a + [j] + b, statsFor) == SumStats(a + b, statsFor)
  {
    SumStatsAppend(a + [j], b, statsFor);
    SumStatsAppend(a, b, statsFor);
    assert (a + [j])[..|a + [j]| - 1] == a;
  }

  /** When every stats the lookup returns has `total` equal to the sum of its four counters (as
      `getReconciliationStats` guarantees), so does the sum. */
  lemma {:induction false} SumKeepsTotals(jobs: seq<UploadJob>, statsFor: ObjectId -> Option<Stats>)
    requires forall id :: statsFor(id).Some? ==> statsFor(id).value.total == MatchResults.Counted(statsFor(id).value)
    ensures SumStats(jobs, statsFor).total == MatchResults.Counted(SumStats(jobs, statsFor))
  {
    if jobs != [] {
      SumKeepsTotals(jobs[..|jobs| - 1], statsFor);
    }
  }

  /** The summary's figures with `getReconciliationStats` as written: each job's id goes in as a string
      (`job._id.toString()`, rendered by `idText`), the uncast `$match` then selects nothing, and so the summed
      reconciliation figures are all zero, whatever results the completed jobs have. */
  lemma {:induction false} SumOfStringMatchedStats(jobs: seq<UploadJob>, store: MatchResults.Store,
                                                   idText: ObjectId -> string)
    ensures var statsFor := (id: ObjectId) => Some(MatchResults.StatsAsWritten(store,
                                                MatchResults.TextValue(idText(id))));
            SumStats(jobs, statsFor) == MatchResults.Stats(0, 0, 0, 0, 0)
  {
    if jobs != [] {
      SumOfStringMatchedStats(jobs[..|jobs| - 1], store, idText);
      MatchResults.StringIdCountsNothing(store, idText(jobs[|jobs| - 1].id));
    }
  }

  /** The upload counts of the summary. */
  datatype UploadCounts = UploadCounts(total: nat, completed: nat, processing: nat, failed: nat)

  /** The summary `getSummary` answers with. */
  datatype Summary = Summary(uploads: UploadCounts, reconciliation: Stats, recentJobs: seq<UploadJob>)

  /** The first `n` elements of `s`, or all of them (`slice(0, n)`). */
  function Prefix<T>(s: seq<T>, n: nat): (r: seq<T>)
    ensures |r| <= n && |r| <= |s|
  {
    if |s| <= n then s else s[..n]
  }

  /** The summation loop of `getSummary`: the stats of each completed job are added field by field, and a job
      whose lookup throws is skipped. */
  method SumCompleted(jobs: seq<UploadJob>, statsFor: ObjectId -> Option<Stats>) returns (totals: Stats)
    ensures totals == SumStats(jobs, statsFor)
  {
    totals := MatchResults.Stats(0, 0, 0, 0, 0);
    for i := 0 to |jobs|
      invariant totals == SumStats(jobs[..i], statsFor)
    {
      assert jobs[..i + 1][..i] == jobs[..i];
      var stats := statsFor(jobs[i].id);
      if stats.Some? {
        totals := totals.(total := totals.total + stats.value.total,
                          matched := totals.matched + stats.value.matched,
                          partial := totals.partial + stats.value.partial,
                          unmatched := totals.unmatched + stats.value.unmatched,
                          duplicate := totals.duplicate + stats.value.duplicate);
      }
    }
    assert jobs[..|jobs|] == jobs;
  }

  /** `getSummary` for the caller `userId` with role `role`; the per-job stats lookup is a parameter that may
      fail. Reads the job table and changes nothing. */
  method GetSummary(svc: UploadService, userId: ObjectId, role: string, statsFor: ObjectId -> Option<Stats>)
    returns (s: Summary)
    ensures var f := OwnerFilter(userId, role);
            var all := ListJobs(svc.jobs, f, 1, SummaryPageSize);
            var completed := ListJobs(svc.jobs, WithStatus(f, COMPLETED), 1, SummaryPageSize);
            && s.uploads == UploadCounts(all.total, completed.total,
                                         ListJobs(svc.jobs, WithStatus(f, PROCESSING), 1, SummaryPageSize).total,
                                         ListJobs(svc.jobs, WithStatus(f, FAILED), 1, SummaryPageSize).total)
            && s.reconciliation == SumStats(completed.jobs, statsFor)
            && s.recentJobs == Prefix(all.jobs, RecentCount)
  {
    var f := OwnerFilter(userId, role);
    var all := svc.GetUploadJobs(f, 1, SummaryPageSize);
    var completed := svc.GetUploadJobs(WithStatus(f, COMPLETED), 1, SummaryPageSize);
    var processing := svc.GetUploadJobs(WithStatus(f, PROCESSING), 1, SummaryPageSize);
    var failed := svc.GetUploadJobs(WithStatus(f, FAILED), 1, SummaryPageSize);
    var totals := SumCompleted(completed.jobs, statsFor);
    s := Summary(UploadCounts(all.total, completed.total, processing.total, failed.total), totals,
                 Prefix(all.jobs, RecentCount));
  }

  /** The jobs every filter of the summary selects belong to the caller unless the caller is an ADMIN. */
  lemma OwnJobsOnly(jobs: seq<UploadJob>, userId: ObjectId, role: string, status: Option<JobStatus>, page: int, limit: int)
    requires page >= 1 && limit >= 1 && role != "ADMIN"
    ensures forall j :: j in ListJobs(jobs, OwnerFilter(userId, role).(status := status), page, limit).jobs ==>
              j in jobs && j.uploadedBy == userId
  {
    ListJobsPage(jobs, OwnerFilter(userId, role).(status := status), page, limit);
  }

  /** An ADMIN's counts cover the whole job table, job by job. */
  lemma {:induction false} AdminSeesAll(jobs: seq<UploadJob>)
    ensures Select(jobs, OwnerFilter(0, "ADMIN")) == jobs
  {
    if jobs != [] {
      AdminSeesAll(jobs[1..]);
      assert jobs == [jobs[0]] + jobs[1..];
    }
  }

  /** A prefix of a newest-first sequence is newest first. */
  lemma PrefixNewestFirst(s: seq<UploadJob>, n: nat)
    requires forall i, k :: 0 <= i < k < |s| ==> s[i].createdAt >= s[k].createdAt
    ensures var p := Prefix(s, n);
            forall i, k :: 0 <= i < k < |p| ==> p[i].createdAt >= p[k].createdAt
  {
  }

  /** The upload counts of a summary: all jobs are split among the three statuses, and the summed
      reconciliation totals cover at most 1000 completed jobs, each of them the caller's unless the caller is
      an ADMIN; at most ten recent jobs are listed, newest first. */
  lemma SummaryShape(jobs: seq<UploadJob>, userId: ObjectId, role: string)
    ensures var f := OwnerFilter(userId, role);
            var all := ListJobs(jobs, f, 1, SummaryPageSize);
            && all.total == ListJobs(jobs, WithStatus(f, COMPLETED), 1, SummaryPageSize).total
                            + ListJobs(jobs, WithStatus(f, PROCESSING), 1, SummaryPageSize).total
                            + ListJobs(jobs, WithStatus(f, FAILED), 1, SummaryPageSize).total
            && |ListJobs(jobs, WithStatus(f, COMPLETED), 1, SummaryPageSize).jobs| <= 1000
            && |Prefix(all.jobs, RecentCount)| <= 10
            && (forall i, k :: 0 <= i < k < |Prefix(all.jobs, RecentCount)| ==>
                  Prefix(all.jobs, RecentCount)[i].createdAt >= Prefix(all.jobs, RecentCount)[k].createdAt)
  {
    var f := OwnerFilter(userId, role);
    SummaryCounts(jobs, f);
    ListJobsPage(jobs, WithStatus(f, COMPLETED), 1, SummaryPageSize);
    ListJobsPage(jobs, f, 1, SummaryPageSize);
    PrefixNewestFirst(ListJobs(jobs, f, 1, SummaryPageSize).jobs, RecentCount);
  }

  /** The four totals of a summary: every job the filter lets through has one of the three statuses. */
  lemma SummaryCounts(jobs: seq<UploadJob>, f: JobFilter)
    requires f.status.None?
    ensures ListJobs(jobs, f, 1, SummaryPageSize).total
            == ListJobs(jobs, WithStatus(f, COMPLETED), 1, SummaryPageSize).total
               + ListJobs(jobs, WithStatus(f, PROCESSING), 1, SummaryPageSize).total
               + ListJobs(jobs, WithStatus(f, FAILED), 1, SummaryPageSize).total
  {
    StatusCountsPartition(jobs, f.uploadedBy);
    assert f == JobFilter(f.uploadedBy, None);
    assert WithStatus(f, COMPLETED) == JobFilter(f.uploadedBy, Some(COMPLETED));
    assert WithStatus(f, PROCESSING) == JobFilter(f.uploadedBy, Some(PROCESSING));
    assert WithStatus(f, FAILED) == JobFilter(f.uploadedBy, Some(FAILED));
  }

  /** The page size of `getRecentActivity` when the request has no `limit` (`limit = '20'`). */
  const DefaultRecentLimit: int := 20

  /** `getRecentActivity`: the first page of the caller's jobs (all jobs for an ADMIN), newest first. `limit` is
      the request's `limit` as `parseInt` reads it (the conversion is the host's), and an absent one means the
      default '20'. */
  function RecentActivity(svc: UploadService, userId: ObjectId, role: string, limit: Option<int>): (r: JobPage)
    reads svc
    requires limit.GetOr(DefaultRecentLimit) >= 1
    ensures |r.jobs| <= limit.GetOr(DefaultRecentLimit) && r.page == 1
    ensures forall i, k :: 0 <= i < k < |r.jobs| ==> r.jobs[i].createdAt >= r.jobs[k].createdAt
    ensures forall j :: j in r.jobs ==> j in svc.jobs
    ensures role != "ADMIN" ==> forall j :: j in r.jobs ==> j.uploadedBy == userId
    ensures role != "ADMIN" ==> r.total == |Select(svc.jobs, JobFilter(Some(userId), None))|
    ensures role == "ADMIN" ==> r.total == |svc.jobs|
  {
    AdminSeesAll(svc.jobs);
    svc.GetUploadJobs(OwnerFilter(userId, role), 1, limit.GetOr(DefaultRecentLimit))
  }
}
