/** The in-memory job queue of backend/src/queues/Queue.ts: jobs kept in insertion order, a set of jobs being
    processed and its counter, retries up to a maximum number of attempts and a concurrency cap. The
    asynchronous run of a job is split into its two atomic halves: `StartNext` (the synchronous part of
    `processNext`) and `Finish` (what happens when the processor's promise settles). */
module JobQueue {
  import opened Wrappers

  /** Queue job ids (`${Date.now()}-<random>`), drawn by the caller. */
  type JobKey = string

  /** `'pending' | 'processing' | 'completed' | 'failed'`. */
  datatype QStatus = Pending | Processing | Completed | Failed

  datatype QueueJob<T> = QueueJob(
    id: JobKey,
    data: T,
    attempts: nat,
    maxAttempts: int,
    delay: int,
    status: QStatus,
    error: Option<string>,
    createdAt: int,
    processedAt: Option<int>)

  const DefaultMaxAttempts: int := 3
  const DefaultRetryDelay: int := 5000
  const DefaultConcurrency: int := 5

  /** `option || fallback`: a missing option or a zero falls back. */
  function OrDefault(o: Option<int>, fallback: int): (r: int)
    ensures o.None? ==> r == fallback
    ensures o.Some? ==> r == (if o.value == 0 then fallback else o.value)
  {
    if o.None? || o.value == 0 then fallback else o.value
  }

  /** The most attempts a job can have made: `maxAttempts`, or one when it is below one (the first run always
      happens). */
  function Cap(maxAttempts: int): int {
    if maxAttempts >= 1 then maxAttempts else 1
  }

  /** What holds of every job of a queue with the given options. */
  ghost predicate JobOk<T>(j: QueueJob<T>, maxAttempts: int, retryDelay: int) {
    && j.maxAttempts == maxAttempts && j.delay == retryDelay
    && j.attempts <= Cap(maxAttempts)
    && (j.status == Pending ==> j.attempts == 0 || j.attempts < maxAttempts)
    && (j.status != Pending ==> j.attempts >= 1)
    && (j.status == Failed ==> j.attempts >= maxAttempts)
    && (j.status == Completed || j.status == Failed ==> j.processedAt.Some?)
  }

  /** The job `add` stores: pending, no attempts yet, with the queue's options. */
  function NewJob<T>(id: JobKey, data: T, maxAttempts: int, retryDelay: int, now: int): QueueJob<T> {
    QueueJob(id, data, 0, maxAttempts, retryDelay, Pending, None, now, None)
  }

  /** A job `processNext` may start: pending and not already being processed. */
  predicate Ready<T>(j: QueueJob<T>, processing: set<JobKey>) {
    j.status == Pending && j.id !in processing
  }

  /** `getNextPendingJob` from position `i` on: the position of the first ready job in insertion order. */
  function FirstReadyFrom<T>(jobs: seq<QueueJob<T>>, processing: set<JobKey>, i: nat): (r: Option<nat>)
    requires i <= |jobs|
    ensures r.None? <==> forall k :: i <= k < |jobs| ==> !Ready(jobs[k], processing)
    ensures r.Some? ==> i <= r.value < |jobs| && Ready(jobs[r.value], processing)
    ensures r.Some? ==> forall k :: i <= k < r.value ==> !Ready(jobs[k], processing)
    decreases |jobs| - i
  {
    if i == |jobs| then None
    else if Ready(jobs[i], processing) then Some(i)
    else FirstReadyFrom(jobs, processing, i + 1)
  }

  /** The job `processNext` starts, if any: none without a processor, at the concurrency cap, or when no job is
      ready. */
  function Pick<T>(jobs: seq<QueueJob<T>>, processing: set<JobKey>, count: int, hasProcessor: bool,
                   concurrency: int): (r: Option<nat>)
    ensures r.Some? ==> hasProcessor && count < concurrency && r.value < |jobs| && Ready(jobs[r.value], processing)
    ensures r.Some? ==> forall k :: 0 <= k < r.value ==> !Ready(jobs[k], processing)
    ensures r.None? <==> !hasProcessor || count >= concurrency || forall k :: 0 <= k < |jobs| ==> !Ready(jobs[k], processing)
  {
    if !hasProcessor || count >= concurrency then None else FirstReadyFrom(jobs, processing, 0)
  }

  /** A job as `processNext` starts it. */
  function AfterStart<T>(j: QueueJob<T>): QueueJob<T> {
    j.(status := Processing, attempts := j.attempts + 1)
  }

  /** `completeJob`. */
  function AfterSuccess<T>(j: QueueJob<T>, now: int): QueueJob<T> {
    j.(status := Completed, processedAt := Some(now))
  }

  /** `failJob`: the error is recorded; the job goes back to pending while attempts remain, and fails for good
      otherwise. */
  function AfterFailure<T>(j: QueueJob<T>, message: string, now: int): QueueJob<T> {
    if j.attempts < j.maxAttempts then j.(error := Some(message), status := Pending)
    else j.(error := Some(message), status := Failed, processedAt := Some(now))
  }

  /** A failed run is retried exactly when attempts remain; either way the error is kept and the attempt count
      and the payload are untouched. */
  lemma FailureRetriesWhileAttemptsRemain<T>(j: QueueJob<T>, message: string, now: int)
    ensures var r := AfterFailure(j, message, now);
            && (r.status == Pending <==> j.attempts < j.maxAttempts)
            && (r.status == Failed <==> j.attempts >= j.maxAttempts)
            && r.error == Some(message) && r.attempts == j.attempts && r.id == j.id && r.data == j.data
  {
  }

  /** A job's lifecycle keeps it within its bounds: starting a ready job, then either outcome. */
  lemma RunKeepsJobOk<T>(j: QueueJob<T>, maxAttempts: int, retryDelay: int, message: string, now: int)
    requires JobOk(j, maxAttempts, retryDelay) && j.status == Pending
    ensures JobOk(AfterStart(j), maxAttempts, retryDelay)
    ensures JobOk(AfterSuccess(AfterStart(j), now), maxAttempts, retryDelay)
    ensures JobOk(AfterFailure(AfterStart(j), message, now), maxAttempts, retryDelay)
  {
  }

  /** Number of jobs with status `st`. */
  function CountOf<T>(jobs: seq<QueueJob<T>>, st: QStatus): (r: nat)
    ensures r <= |jobs|
  {
    if jobs == [] then 0
    else CountOf(jobs[..|jobs| - 1], st) + (if jobs[|jobs| - 1].status == st then 1 else 0)
  }

  /** Ids of the jobs with status `st`. */
  ghost function IdsWith<T>(jobs: seq<QueueJob<T>>, st: QStatus): set<JobKey> {
    if jobs == [] then {}
    else IdsWith(jobs[..|jobs| - 1], st) + (if jobs[|jobs| - 1].status == st then {jobs[|jobs| - 1].id} else {})
  }

  /** Job ids are distinct. */
  ghost predicate DistinctIds<T>(jobs: seq<QueueJob<T>>) {
    forall i, k :: 0 <= i < k < |jobs| ==> jobs[i].id != jobs[k].id
  }

  /** Every id in `IdsWith` belongs to a job with that status. */
  lemma {:induction false} IdsWithIndex<T>(jobs: seq<QueueJob<T>>, st: QStatus, id: JobKey) returns (i: nat)
    requires id in IdsWith(jobs, st)
    ensures i < |jobs| && jobs[i].id == id && jobs[i].status == st
  {
    var last := jobs[|jobs| - 1];
    if last.status == st && last.id == id {
      i := |jobs| - 1;
    } else {
      i := IdsWithIndex(jobs[..|jobs| - 1], st, id);
    }
  }

  /** A job with status `st` has its id in `IdsWith`. */
  lemma {:induction false} IndexInIdsWith<T>(jobs: seq<QueueJob<T>>, st: QStatus, i: nat)
    requires i < |jobs| && jobs[i].status == st
    ensures jobs[i].id in IdsWith(jobs, st)
  {
    if i < |jobs| - 1 {
      IndexInIdsWith(jobs[..|jobs| - 1], st, i);
    }
  }

  /** An id no job carries is in no `IdsWith`. */
  lemma {:induction false} NotInIdsWith<T>(jobs: seq<QueueJob<T>>, st: QStatus, id: JobKey)
    requires forall i :: 0 <= i < |jobs| ==> jobs[i].id != id
    ensures id !in IdsWith(jobs, st)
  {
    if jobs != [] {
      NotInIdsWith(jobs[..|jobs| - 1], st, id);
    }
  }

  /** With distinct ids, the ids with a status are as many as the jobs with it. */
  lemma {:induction false} IdsWithCount<T>(jobs: seq<QueueJob<T>>, st: QStatus)
    requires DistinctIds(jobs)
    ensures |IdsWith(jobs, st)| == CountOf(jobs, st)
  {
    if jobs != [] {
      var init := jobs[..|jobs| - 1];
      var last := jobs[|jobs| - 1];
      IdsWithCount(init, st);
      NotInIdsWith(init, st, last.id);
    }
  }

  /** Appending a job adds its id to its own status only. */
  lemma IdsWithAppend<T>(jobs: seq<QueueJob<T>>, j: QueueJob<T>, st: QStatus)
    ensures IdsWith(jobs + [j], st) == IdsWith(jobs, st) + (if j.status == st then {j.id} else {})
  {
    assert (jobs + [j])[..|jobs|] == jobs;
  }

  /** Replacing the job at `k` by one with the same id moves that id to the new status and nothing else. */
  lemma {:induction false} IdsWithUpdate<T>(jobs: seq<QueueJob<T>>, k: nat, j: QueueJob<T>, st: QStatus)
    requires DistinctIds(jobs) && k < |jobs| && j.id == jobs[k].id
    ensures IdsWith(jobs[k := j], st)
            == IdsWith(jobs, st) - {j.id} + (if j.status == st then {j.id} else {})
    decreases |jobs|, 1
  {
    if k == |jobs| - 1 {
      IdsWithUpdateLast(jobs, j, st);
    } else {
      IdsWithUpdateInner(jobs, k, j, st);
    }
  }

  lemma IdsWithUpdateLast<T>(jobs: seq<QueueJob<T>>, j: QueueJob<T>, st: QStatus)
    requires DistinctIds(jobs) && jobs != [] && j.id == jobs[|jobs| - 1].id
    ensures IdsWith(jobs[|jobs| - 1 := j], st)
            == IdsWith(jobs, st) - {j.id} + (if j.status == st then {j.id} else {})
  {
    var init := jobs[..|jobs| - 1];
    var t := jobs[|jobs| - 1 := j];
    assert t[..|t| - 1] == init;
    NotInIdsWith(init, st, j.id);
  }

  lemma {:induction false} IdsWithUpdateInner<T>(jobs: seq<QueueJob<T>>, k: nat, j: QueueJob<T>, st: QStatus)
    requires DistinctIds(jobs) && k < |jobs| - 1 && j.id == jobs[k].id
    ensures IdsWith(jobs[k := j], st)
            == IdsWith(jobs, st) - {j.id} + (if j.status == st then {j.id} else {})
    decreases |jobs|, 0
  {
    var init := jobs[..|jobs| - 1];
    var last := jobs[|jobs| - 1];
    var t := jobs[k := j];
    assert t[..|t| - 1] == init[k := j];
    IdsWithUpdate(init, k, j, st);
    assert last.id != j.id;
  }

  /** The four status counts add up to the number of jobs. */
  lemma {:induction false} CountsAddUp<T>(jobs: seq<QueueJob<T>>)
    ensures CountOf(jobs, Pending) + CountOf(jobs, Processing) + CountOf(jobs, Completed) + CountOf(jobs, Failed)
            == |jobs|
  {
    if jobs != [] {
      CountsAddUp(jobs[..|jobs| - 1]);
    }
  }

  /** The result of `getStats`. */
  datatype QueueStats = QueueStats(total: nat, pending: nat, processing: nat, completed: nat, failed: nat)

  /** The counts `getStats` reports for `jobs`. */
  function StatsOf<T>(jobs: seq<QueueJob<T>>): QueueStats {
    QueueStats(|jobs|, CountOf(jobs, Pending), CountOf(jobs, Processing), CountOf(jobs, Completed),
               CountOf(jobs, Failed))
  }

  /** The position of the job with id `id` (`jobs.get(id)`). */
  function IndexOf<T>(jobs: seq<QueueJob<T>>, id: JobKey): (r: Option<nat>)
    ensures r.None? <==> forall i :: 0 <= i < |jobs| ==> jobs[i].id != id
    ensures r.Some? ==> r.value < |jobs| && jobs[r.value].id == id
  {
    if jobs == [] then None
    else if jobs[0].id == id then Some(0)
    else match IndexOf(jobs[1..], id)
      case None => None
      case Some(k) => Some(k + 1)
  }

  /** Ids are distinct, every job respects its attempt bounds, the processing set holds exactly the jobs in
      status processing, the counter is its size, and the counter never exceeds the concurrency (a queue
      with concurrency below one never starts anything). */
  ghost predicate QueueOk<T>(jobs: seq<QueueJob<T>>, processing: set<JobKey>, count: int,
                             maxAttempts: int, retryDelay: int, concurrency: int) {
    && DistinctIds(jobs)
    && (forall i :: 0 <= i < |jobs| ==> JobOk(jobs[i], maxAttempts, retryDelay))
    && processing == IdsWith(jobs, Processing)
    && count == |processing|
    && (count <= concurrency || count == 0)
  }

  /** Adding a pending job with a fresh id keeps the queue valid. */
  lemma AddKeepsOk<T>(jobs: seq<QueueJob<T>>, processing: set<JobKey>, count: int,
                      maxAttempts: int, retryDelay: int, concurrency: int, j: QueueJob<T>)
    requires QueueOk(jobs, processing, count, maxAttempts, retryDelay, concurrency)
    requires forall i :: 0 <= i < |jobs| ==> jobs[i].id != j.id
    requires j.status == Pending && j.attempts == 0 && j.maxAttempts == maxAttempts && j.delay == retryDelay
    ensures QueueOk(jobs + [j], processing, count, maxAttempts, retryDelay, concurrency)
  {
    IdsWithAppend(jobs, j, Processing);
    var t := jobs + [j];
    assert forall i :: 0 <= i < |jobs| ==> t[i] == jobs[i];
  }

  /** Starting the ready job at `k` below the concurrency cap keeps the queue valid. */
  lemma StartKeepsOk<T>(jobs: seq<QueueJob<T>>, processing: set<JobKey>, count: int,
                        maxAttempts: int, retryDelay: int, concurrency: int, k: nat)
    requires QueueOk(jobs, processing, count, maxAttempts, retryDelay, concurrency)
    requires k < |jobs| && Ready(jobs[k], processing) && count < concurrency
    ensures QueueOk(jobs[k := AfterStart(jobs[k])], processing + {jobs[k].id}, count + 1,
                    maxAttempts, retryDelay, concurrency)
  {
    RunKeepsJobOk(jobs[k], maxAttempts, retryDelay, "", 0);
    IdsWithUpdate(jobs, k, AfterStart(jobs[k]), Processing);
  }

  /** Settling the processing job at `k` either way keeps the queue valid. */
  lemma FinishKeepsOk<T>(jobs: seq<QueueJob<T>>, processing: set<JobKey>, count: int,
                         maxAttempts: int, retryDelay: int, concurrency: int, k: nat, outcome: Option<string>, now: int)
    requires QueueOk(jobs, processing, count, maxAttempts, retryDelay, concurrency)
    requires k < |jobs| && jobs[k].status == Processing
    ensures var after := if outcome.None? then AfterSuccess(jobs[k], now) else AfterFailure(jobs[k], outcome.value, now);
            QueueOk(jobs[k := after], processing - {jobs[k].id}, count - 1, maxAttempts, retryDelay, concurrency)
  {
    var after := if outcome.None? then AfterSuccess(jobs[k], now) else AfterFailure(jobs[k], outcome.value, now);
    IndexInIdsWith(jobs, Processing, k);
    IdsWithUpdate(jobs, k, after, Processing);
  }

  class Queue<T> {
    /** The job map, in insertion order. */
    var jobs: seq<QueueJob<T>>
    /** Ids of the jobs being processed. */
    var processing: set<JobKey>
    var processingCount: int
    /** Whether a processor has been registered. */
    var hasProcessor: bool
    const maxAttempts: int
    const retryDelay: int
    const concurrency: int

    ghost predicate Valid()
      reads this
    {
      QueueOk(jobs, processing, processingCount, maxAttempts, retryDelay, concurrency)
    }

    /** `new Queue(name, options)`: each missing or zero option takes its default. */
    constructor(maxAttemptsOption: Option<int>, retryDelayOption: Option<int>, concurrencyOption: Option<int>)
      ensures Valid()
      ensures maxAttempts == OrDefault(maxAttemptsOption, DefaultMaxAttempts)
      ensures retryDelay == OrDefault(retryDelayOption, DefaultRetryDelay)
      ensures concurrency == OrDefault(concurrencyOption, DefaultConcurrency)
      ensures jobs == [] && processing == {} && processingCount == 0 && !hasProcessor
    {
      maxAttempts := OrDefault(maxAttemptsOption, DefaultMaxAttempts);
      retryDelay := OrDefault(retryDelayOption, DefaultRetryDelay);
      concurrency := OrDefault(concurrencyOption, DefaultConcurrency);
      jobs := [];
      processing := {};
      processingCount := 0;
      hasProcessor := false;
    }

    /** `getNextPendingJob`: scans the jobs in insertion order for the first one that is pending and not being
        processed. */
    method GetNextPendingJob() returns (r: Option<nat>)
      ensures r == FirstReadyFrom(jobs, processing, 0)
    {
      var i := 0;
      while i < |jobs|
        invariant i <= |jobs|
        invariant FirstReadyFrom(jobs, processing, i) == FirstReadyFrom(jobs, processing, 0)
      {
        if jobs[i].status == Pending && jobs[i].id !in processing {
          return Some(i);
        }
        i := i + 1;
      }
      return None;
    }

    /** The synchronous part of `processNext`: starts the job `Pick` names, if any, and returns its id. */
    method StartNext() returns (started: Option<JobKey>)
      requires Valid()
      modifies this
      ensures Valid()
      ensures hasProcessor == old(hasProcessor)
      ensures var k := Pick(old(jobs), old(processing), old(processingCount), hasProcessor, concurrency);
              && (k.None? ==> started.None? && jobs == old(jobs) && processing == old(processing)
                              && processingCount == old(processingCount))
              && (k.Some? ==> && started == Some(old(jobs)[k.value].id)
                              && jobs == old(jobs)[k.value := AfterStart(old(jobs)[k.value])]
                              && processing == old(processing) + {old(jobs)[k.value].id}
                              && processingCount == old(processingCount) + 1)
    {
      started := None;
      if hasProcessor && processingCount < concurrency {
        var next := GetNextPendingJob();
        if next.Some? {
          var k := next.value;
          var job := jobs[k];
          StartKeepsOk(jobs, processing, processingCount, maxAttempts, retryDelay, concurrency, k);
          jobs, processing, processingCount := jobs[k := AfterStart(job)], processing + {job.id}, processingCount + 1;
          started := Some(job.id);
        }
      }
    }

    /** `process(processor)`: registers the processor and tries to start a job. */
    method Process() returns (started: Option<JobKey>)
      requires Valid()
      modifies this
      ensures Valid() && hasProcessor
      ensures var k := Pick(old(jobs), old(processing), old(processingCount), true, concurrency);
              && (k.None? ==> started.None? && jobs == old(jobs) && processing == old(processing))
              && (k.Some? ==> started == Some(old(jobs)[k.value].id)
                              && jobs == old(jobs)[k.value := AfterStart(old(jobs)[k.value])])
    {
      hasProcessor := true;
      started := StartNext();
    }

    /** `add(data)` with the id drawn by the caller: stores a new pending job and, when a processor is
        registered, tries to start a job. */
    method Add(data: T, id: JobKey, now: int) returns (jobId: JobKey, started: Option<JobKey>)
      requires Valid()
      requires forall i :: 0 <= i < |jobs| ==> jobs[i].id != id
      modifies this
      ensures Valid() && hasProcessor == old(hasProcessor) && jobId == id
      ensures var added := old(jobs) + [NewJob(id, data, maxAttempts, retryDelay, now)];
              var k := Pick(added, old(processing), old(processingCount), hasProcessor, concurrency);
              && (k.None? ==> started.None? && jobs == added && processing == old(processing))
              && (k.Some? ==> started == Some(added[k.value].id)
                              && jobs == added[k.value := AfterStart(added[k.value])]
                              && processing == old(processing) + {added[k.value].id})
    {
      var job := NewJob(id, data, maxAttempts, retryDelay, now);
      AddKeepsOk(jobs, processing, processingCount, maxAttempts, retryDelay, concurrency, job);
      jobs := jobs + [job];
      jobId := id;
      started := None;
      if hasProcessor {
        started := StartNext();
      }
    }

    /** The settlement of a started job: `completeJob` when the processor resolved (`outcome` is `None`),
        `failJob` with the error message when it rejected; then the job leaves the processing set. */
    method Finish(jobId: JobKey, outcome: Option<string>, now: int)
      requires Valid() && jobId in processing
      modifies this
      ensures Valid()
      ensures var k := IndexOf(old(jobs), jobId);
              && k.Some? && old(jobs)[k.value].status == Processing
              && jobs == old(jobs)[k.value := if outcome.None? then AfterSuccess(old(jobs)[k.value], now)
                                              else AfterFailure(old(jobs)[k.value], outcome.value, now)]
      ensures processing == old(processing) - {jobId} && processingCount == old(processingCount) - 1
    {
      var i := IdsWithIndex(jobs, Processing, jobId);
      var found := IndexOf(jobs, jobId);
      assert found.Some? && found.value == i;
      var k := found.value;
      var job := jobs[k];
      var after := if outcome.None? then AfterSuccess(job, now) else AfterFailure(job, outcome.value, now);
      FinishKeepsOk(jobs, processing, processingCount, maxAttempts, retryDelay, concurrency, k, outcome, now);
      jobs := jobs[k := after];
      processing := processing - {jobId};
      processingCount := processingCount - 1;
    }

    /** `getJob(jobId)`. */
    function GetJob(jobId: JobKey): (r: Option<QueueJob<T>>)
      reads this
      ensures r.Some? <==> exists i :: 0 <= i < |jobs| && jobs[i].id == jobId
      ensures r.Some? ==> r.value.id == jobId && r.value in jobs
    {
      match IndexOf(jobs, jobId)
      case None => None
      case Some(k) => Some(jobs[k])
    }

    /** `getStats`: counts the jobs by status in one pass. */
    method GetStats() returns (stats: QueueStats)
      ensures stats == StatsOf(jobs)
    {
      stats := QueueStats(|jobs|, 0, 0, 0, 0);
      for i := 0 to |jobs|
        invariant stats == QueueStats(|jobs|, CountOf(jobs[..i], Pending), CountOf(jobs[..i], Processing),
                                      CountOf(jobs[..i], Completed), CountOf(jobs[..i], Failed))
      {
        assert jobs[..i + 1][..i] == jobs[..i];
        match jobs[i].status
        case Pending => stats := stats.(pending := stats.pending + 1);
        case Processing => stats := stats.(processing := stats.processing + 1);
        case Completed => stats := stats.(completed := stats.completed + 1);
        case Failed => stats := stats.(failed := stats.failed + 1);
      }
      assert jobs[..|jobs|] == jobs;
    }
  }

  /** In a valid queue the stats add up to the total, and the processing count equals both the size of the
      processing set and the counter. */
  lemma StatsConsistent<T>(q: Queue<T>)
    requires q.Valid()
    ensures var s := StatsOf(q.jobs);
            s.pending + s.processing + s.completed + s.failed == s.total
            && s.processing == q.processingCount
  {
    CountsAddUp(q.jobs);
    IdsWithCount(q.jobs, Processing);
  }
}
