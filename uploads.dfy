/** Upload jobs: the schema of backend/src/models/UploadJob.model.ts and the job table kept by
    backend/src/services/upload.service.ts. */
module Uploads {
  import opened Wrappers
  import opened Text
  import opened Sorting
  import Records
  import opened Paging

  type ObjectId = Records.ObjectId

  /** `UploadJobStatus`. */
  datatype JobStatus = PROCESSING | COMPLETED | FAILED

  /** One upload job. Dates are instants in milliseconds; `createdAt`/`updatedAt` come from the schema's
      `timestamps` option. */
  datatype UploadJob = UploadJob(
    id: ObjectId,
    fileName: string,
    fileHash: string,
    fileSize: real,
    filePath: string,
    status: JobStatus,
    uploadedBy: ObjectId,
    totalRecords: int,
    processedRecords: int,
    errorMessage: Option<string>,
    startedAt: Option<int>,
    completedAt: Option<int>,
    createdAt: int,
    updatedAt: int)

  /** Why `createUploadJob` throws: the 409 duplicate-file error naming the job that already holds the hash,
      or the schema's validation error listing the messages of the missing required fields. */
  datatype UploadError = Conflict(existing: ObjectId) | Invalid(messages: seq<string>)

  /** The HTTP status the error handler answers with: 409 for the duplicate, 500 for an error without one. */
  function HttpStatus(e: UploadError): (code: int)
    ensures code == 409 <==> e.Conflict?
    ensures e.Invalid? ==> code == 500
  {
    match e
    case Conflict(_) => 409
    case Invalid(_) => 500
  }

  /** A run with status COMPLETED or FAILED is over. */
  predicate Finished(s: JobStatus) {
    s == COMPLETED || s == FAILED
  }

  /** The position of the first job holding `hash` (`findOne({ fileHash })`). */
  function FindByHash(jobs: seq<UploadJob>, hash: string): (r: Option<nat>)
    ensures r.None? <==> forall i :: 0 <= i < |jobs| ==> jobs[i].fileHash != hash
    ensures r.Some? ==> r.value < |jobs| && jobs[r.value].fileHash == hash
    ensures r.Some? ==> forall i :: 0 <= i < r.value ==> jobs[i].fileHash != hash
  {
    if jobs == [] then None
    else if jobs[0].fileHash == hash then Some(0)
    else match FindByHash(jobs[1..], hash)
      case None => None
      case Some(k) => Some(k + 1)
  }

  /** The `required` validators that fail, in schema order; `fileName` is trimmed before it is checked. */
  function Missing(fileName: string, fileHash: string, filePath: string): (r: seq<string>)
    ensures r == [] <==> Trim(fileName) != "" && fileHash != "" && filePath != ""
  {
    (if Trim(fileName) == "" then ["File name is required"] else [])
    + (if fileHash == "" then ["File hash is required"] else [])
    + (if filePath == "" then ["File path is required"] else [])
  }

  /** `createUploadJob` on the table `jobs`, given the file's hash and the clock: a hash already present is
      refused; otherwise the job is validated and stored with the next id. */
  function Create(jobs: seq<UploadJob>, fileName: string, filePath: string, fileSize: real, uploadedBy: ObjectId,
                  fileHash: string, now: int): Result<UploadJob, UploadError>
  {
    match FindByHash(jobs, fileHash)
    case Some(k) => Failure(Conflict(jobs[k].id))
    case None =>
      var missing := Missing(fileName, fileHash, filePath);
      if missing != [] then Failure(Invalid(missing))
      else Success(UploadJob(|jobs|, Trim(fileName), fileHash, fileSize, filePath, PROCESSING, uploadedBy,
                             0, 0, None, Some(now), None, now, now))
  }

  /** What the schema and the unique index guarantee of the stored jobs: each job's id is its position
      (ids are handed out in order), the required strings are present, file names are trimmed, file hashes
      are unique, and a finished job carries its completion time. */
  ghost predicate ValidJobs(jobs: seq<UploadJob>) {
    && (forall i :: 0 <= i < |jobs| ==> jobs[i].id == i)
    && (forall i :: 0 <= i < |jobs| ==> jobs[i].fileName != "" && IsTrimmed(jobs[i].fileName))
    && (forall i :: 0 <= i < |jobs| ==> jobs[i].fileHash != "" && jobs[i].filePath != "")
    && (forall i, k :: 0 <= i < k < |jobs| ==> jobs[i].fileHash != jobs[k].fileHash)
    && (forall i :: 0 <= i < |jobs| && Finished(jobs[i].status) ==> jobs[i].completedAt.Some?)
  }

  /** A hash already in the table is refused with 409 naming its job, and nothing is created; a new hash
      with the required fields present gives a PROCESSING job with the schema defaults, started now. */
  lemma CreateOutcome(jobs: seq<UploadJob>, fileName: string, filePath: string, fileSize: real,
                      uploadedBy: ObjectId, fileHash: string, now: int)
    requires ValidJobs(jobs)
    ensures var r := Create(jobs, fileName, filePath, fileSize, uploadedBy, fileHash, now);
            && (r.Failure? && r.error.Conflict? <==> exists i :: 0 <= i < |jobs| && jobs[i].fileHash == fileHash)
            && (r.Failure? && r.error.Conflict? ==>
                  r.error.existing < |jobs| && jobs[r.error.existing].fileHash == fileHash)
            && (r.Success? <==> (forall i :: 0 <= i < |jobs| ==> jobs[i].fileHash != fileHash)
                                && Trim(fileName) != "" && fileHash != "" && filePath != "")
  {
    var r := Create(jobs, fileName, filePath, fileSize, uploadedBy, fileHash, now);
    match FindByHash(jobs, fileHash)
    case Some(k) =>
      assert jobs[k].fileHash == fileHash;
    case None =>
  }

  /** The job a successful create stores. */
  lemma CreatedJob(jobs: seq<UploadJob>, fileName: string, filePath: string, fileSize: real,
                   uploadedBy: ObjectId, fileHash: string, now: int)
    ensures var r := Create(jobs, fileName, filePath, fileSize, uploadedBy, fileHash, now);
            r.Success? ==>
              && r.value.id == |jobs| && r.value.status == PROCESSING
              && r.value.totalRecords == 0 && r.value.processedRecords == 0
              && r.value.startedAt == Some(now) && r.value.completedAt.None? && r.value.errorMessage.None?
              && r.value.fileName == Trim(fileName) && r.value.fileHash == fileHash
              && r.value.filePath == filePath && r.value.fileSize == fileSize && r.value.uploadedBy == uploadedBy
  {
  }

  /** Appending a job with the next id, a fresh hash and the required fields keeps the table valid. */
  lemma AppendKeepsValid(jobs: seq<UploadJob>, job: UploadJob)
    requires ValidJobs(jobs)
    requires job.id == |jobs| && job.fileName != "" && IsTrimmed(job.fileName)
    requires job.fileHash != "" && job.filePath != "" && job.status == PROCESSING
    requires forall i :: 0 <= i < |jobs| ==> jobs[i].fileHash != job.fileHash
    ensures ValidJobs(jobs + [job])
  {
    var t := jobs + [job];
    assert forall i :: 0 <= i < |jobs| ==> t[i] == jobs[i];
    assert t[|jobs|] == job;
  }

  /** A create keeps the table valid. */
  lemma CreateKeepsValid(jobs: seq<UploadJob>, fileName: string, filePath: string, fileSize: real,
                         uploadedBy: ObjectId, fileHash: string, now: int)
    requires ValidJobs(jobs)
    ensures var r := Create(jobs, fileName, filePath, fileSize, uploadedBy, fileHash, now);
            r.Success? ==> ValidJobs(jobs + [r.value])
  {
    var r := Create(jobs, fileName, filePath, fileSize, uploadedBy, fileHash, now);
    if r.Success? {
      assert FindByHash(jobs, fileHash).None?;
      TrimIdempotent(fileName);
      AppendKeepsValid(jobs, r.value);
    }
  }

  /** Idempotency of uploads: once a file is stored, uploading a file with the same hash again, under any name,
      is refused with 409 naming the stored job. */
  lemma SecondUploadRefused(jobs: seq<UploadJob>, fileName: string, filePath: string, fileSize: real,
                            uploadedBy: ObjectId, fileHash: string, now: int,
                            fileName2: string, filePath2: string, fileSize2: real, uploadedBy2: ObjectId, later: int)
    requires ValidJobs(jobs)
    requires Create(jobs, fileName, filePath, fileSize, uploadedBy, fileHash, now).Success?
    ensures var job := Create(jobs, fileName, filePath, fileSize, uploadedBy, fileHash, now).value;
            Create(jobs + [job], fileName2, filePath2, fileSize2, uploadedBy2, fileHash, later) == Failure(Conflict(job.id))
  {
    var job := Create(jobs, fileName, filePath, fileSize, uploadedBy, fileHash, now).value;
    var t := jobs + [job];
    assert t[|jobs|].fileHash == fileHash;
    match FindByHash(t, fileHash)
    case None =>
    case Some(k) =>
      assert k == |jobs|;
  }

  /** The fields the callers pass in `updates` (a `Partial<IUploadJob>`). */
  datatype JobUpdates = JobUpdates(totalRecords: Option<int>, processedRecords: Option<int>, errorMessage: Option<string>)

  /** `{ status, ...updates }`, with `completedAt` stamped when the run is over, applied to `j`; the
      `timestamps` option refreshes `updatedAt`. */
  function Updated(j: UploadJob, status: JobStatus, u: JobUpdates, now: int): UploadJob {
    j.(status := status,
       totalRecords := u.totalRecords.GetOr(j.totalRecords),
       processedRecords := u.processedRecords.GetOr(j.processedRecords),
       errorMessage := if u.errorMessage.Some? then u.errorMessage else j.errorMessage,
       completedAt := if Finished(status) then Some(now) else j.completedAt,
       updatedAt := now)
  }

  /** An update to COMPLETED or FAILED stamps `completedAt` with the current time; any other leaves it as it
      was; the given fields are overwritten and the others, the file's identity among them, are kept. */
  lemma UpdatedFields(j: UploadJob, status: JobStatus, u: JobUpdates, now: int)
    ensures var r := Updated(j, status, u, now);
            && r.status == status
            && (Finished(status) ==> r.completedAt == Some(now))
            && (!Finished(status) ==> r.completedAt == j.completedAt)
            && (u.totalRecords.Some? ==> r.totalRecords == u.totalRecords.value)
            && (u.totalRecords.None? ==> r.totalRecords == j.totalRecords)
            && (u.processedRecords.Some? ==> r.processedRecords == u.processedRecords.value)
            && (u.processedRecords.None? ==> r.processedRecords == j.processedRecords)
            && (u.errorMessage.Some? ==> r.errorMessage == u.errorMessage)
            && (u.errorMessage.None? ==> r.errorMessage == j.errorMessage)
            && r.id == j.id && r.fileName == j.fileName && r.fileHash == j.fileHash && r.filePath == j.filePath
            && r.uploadedBy == j.uploadedBy && r.startedAt == j.startedAt && r.createdAt == j.createdAt
  {
  }

  /** An update keeps the table valid: in particular a finished job always has its completion time. */
  lemma UpdateKeepsValid(jobs: seq<UploadJob>, k: nat, status: JobStatus, u: JobUpdates, now: int)
    requires ValidJobs(jobs) && k < |jobs|
    ensures ValidJobs(jobs[k := Updated(jobs[k], status, u, now)])
  {
  }

  /** `$inc: { processedRecords: count }` applied to `j`. */
  function Incremented(j: UploadJob, count: int, now: int): UploadJob {
    j.(processedRecords := j.processedRecords + count, updatedAt := now)
  }

  /** Filters `getUploadJobs` is called with: an optional owner and an optional status. */
  datatype JobFilter = JobFilter(uploadedBy: Option<ObjectId>, status: Option<JobStatus>)

  /** Each given filter is an equality constraint; an absent one imposes none. */
  predicate Matches(f: JobFilter, j: UploadJob) {
    && (f.uploadedBy.Some? ==> j.uploadedBy == f.uploadedBy.value)
    && (f.status.Some? ==> j.status == f.status.value)
  }

  /** The jobs that match `f`, in table order (`find(filters)`). */
  function Select(jobs: seq<UploadJob>, f: JobFilter): (r: seq<UploadJob>)
    ensures |r| <= |jobs|
    ensures forall j :: j in r ==> j in jobs && Matches(f, j)
  {
    if jobs == [] then []
    else (if Matches(f, jobs[0]) then [jobs[0]] else []) + Select(jobs[1..], f)
  }

  /** Every matching job is selected. */
  lemma {:induction false} SelectComplete(jobs: seq<UploadJob>, f: JobFilter, j: UploadJob)
    requires j in jobs && Matches(f, j)
    ensures j in Select(jobs, f)
  {
    if jobs[0] != j {
      SelectComplete(jobs[1..], f, j);
    }
  }

  /** Sort key of `.sort({ createdAt: -1 })`: ascending in this key is newest first. */
  function NewestFirst(j: UploadJob): int {
    -j.createdAt
  }

  /** The result of `getUploadJobs`. */
  datatype JobPage = JobPage(jobs: seq<UploadJob>, total: nat, page: int, totalPages: nat)

  /** `getUploadJobs(filters, page, limit)` on the table `jobs`. */
  function ListJobs(jobs: seq<UploadJob>, f: JobFilter, page: int, limit: int): JobPage
    requires page >= 1 && limit >= 1
  {
    var selected := Select(jobs, f);
    JobPage(Window(SortBy(selected, NewestFirst), Skip(page, limit), limit), |selected|, page,
            TotalPages(|selected|, limit))
  }

  /** A page holds at most `limit` jobs, each of them a stored job matching the filters, newest first;
      `total` counts every matching job and the page number is echoed. */
  lemma ListJobsPage(jobs: seq<UploadJob>, f: JobFilter, page: int, limit: int)
    requires page >= 1 && limit >= 1
    ensures var r := ListJobs(jobs, f, page, limit);
            && |r.jobs| <= limit && r.page == page
            && r.total == |Select(jobs, f)|
            && (forall j :: j in r.jobs ==> j in jobs && Matches(f, j))
            && (forall i, k :: 0 <= i < k < |r.jobs| ==> r.jobs[i].createdAt >= r.jobs[k].createdAt)
  {
    ListJobsMembers(jobs, f, page, limit);
    ListJobsOrdered(jobs, f, page, limit);
  }

  /** Every job on a page is a stored job matching the filters. */
  lemma ListJobsMembers(jobs: seq<UploadJob>, f: JobFilter, page: int, limit: int)
    requires page >= 1 && limit >= 1
    ensures forall j :: j in ListJobs(jobs, f, page, limit).jobs ==> j in jobs && Matches(f, j)
  {
    var sorted := SortBy(Select(jobs, f), NewestFirst);
    var w := ListJobs(jobs, f, page, limit).jobs;
    forall j | j in w ensures j in jobs && Matches(f, j) {
      WindowWithin(sorted, Skip(page, limit), limit, j);
      assert j in multiset(sorted);
    }
  }

  /** A page lists its jobs newest first. */
  lemma ListJobsOrdered(jobs: seq<UploadJob>, f: JobFilter, page: int, limit: int)
    requires page >= 1 && limit >= 1
    ensures var w := ListJobs(jobs, f, page, limit).jobs;
            forall i, k :: 0 <= i < k < |w| ==> w[i].createdAt >= w[k].createdAt
  {
    var sorted := SortBy(Select(jobs, f), NewestFirst);
    var w := ListJobs(jobs, f, page, limit).jobs;
    WindowSorted(sorted, NewestFirst, Skip(page, limit), limit);
    forall i, k | 0 <= i < k < |w| ensures w[i].createdAt >= w[k].createdAt {
      assert NewestFirst(w[i]) <= NewestFirst(w[k]);
    }
  }

  /** A page is empty exactly when it lies past the last page. */
  lemma PageEmptyIffPastLast(jobs: seq<UploadJob>, f: JobFilter, page: int, limit: int)
    requires page >= 1 && limit >= 1
    ensures var r := ListJobs(jobs, f, page, limit);
            r.jobs == [] <==> page > r.totalPages
  {
    WindowEmptyIffPastLast(SortBy(Select(jobs, f), NewestFirst), page, limit);
  }

  /** When every match fits in one page, the first page lists all of them. */
  lemma FirstPageHoldsAll(jobs: seq<UploadJob>, f: JobFilter, limit: int)
    requires limit >= 1 && |Select(jobs, f)| <= limit
    ensures multiset(ListJobs(jobs, f, 1, limit).jobs) == multiset(Select(jobs, f))
  {
    var sorted := SortBy(Select(jobs, f), NewestFirst);
    assert Skip(1, limit) == 0;
    WindowWhole(sorted, limit);
  }

  /** The jobs of one status, over the three statuses, account for every job the owner filter lets through. */
  lemma {:induction false} StatusCountsPartition(jobs: seq<UploadJob>, owner: Option<ObjectId>)
    ensures |Select(jobs, JobFilter(owner, None))|
            == |Select(jobs, JobFilter(owner, Some(COMPLETED)))| + |Select(jobs, JobFilter(owner, Some(PROCESSING)))|
               + |Select(jobs, JobFilter(owner, Some(FAILED)))|
  {
    if jobs != [] {
      StatusCountsPartition(jobs[1..], owner);
    }
  }

  /** The upload service over the job collection. */
  class UploadService {
    var jobs: seq<UploadJob>

    ghost predicate Valid()
      reads this
    {
      ValidJobs(jobs)
    }

    constructor()
      ensures Valid() && jobs == []
    {
      jobs := [];
    }

    /** `createUploadJob(fileName, filePath, fileSize, uploadedBy)`, with the file's hash and the clock as
        parameters: refuses a file already uploaded, otherwise stores the new job. */
    method CreateUploadJob(fileName: string, filePath: string, fileSize: real, uploadedBy: ObjectId,
                           fileHash: string, now: int) returns (r: Result<UploadJob, UploadError>)
      requires Valid()
      modifies this
      ensures Valid()
      ensures r == Create(old(jobs), fileName, filePath, fileSize, uploadedBy, fileHash, now)
      ensures r.Success? ==> jobs == old(jobs) + [r.value]
      ensures r.Failure? ==> jobs == old(jobs)
    {
      var existing := FindByHash(jobs, fileHash);
      if existing.Some? {
        return Failure(Conflict(jobs[existing.value].id));
      }
      var missing := Missing(fileName, fileHash, filePath);
      if missing != [] {
        return Failure(Invalid(missing));
      }
      var job := UploadJob(|jobs|, Trim(fileName), fileHash, fileSize, filePath, PROCESSING, uploadedBy,
                           0, 0, None, Some(now), None, now, now);
      CreateKeepsValid(jobs, fileName, filePath, fileSize, uploadedBy, fileHash, now);
      jobs := jobs + [job];
      r := Success(job);
    }

    /** `getUploadJobs(filters, page, limit)`: at most `limit` jobs, each a stored job matching the filters,
        newest first; `total` counts every match, `totalPages` is the ceiling of `total / limit`, and the page
        is empty exactly when it lies past the last one. */
    function GetUploadJobs(f: JobFilter, page: int, limit: int): (r: JobPage)
      reads this
      requires page >= 1 && limit >= 1
      ensures |r.jobs| <= limit && r.page == page
      ensures r.total == |Select(jobs, f)|
      ensures forall j :: j in r.jobs ==> j in jobs && Matches(f, j)
      ensures forall i, k :: 0 <= i < k < |r.jobs| ==> r.jobs[i].createdAt >= r.jobs[k].createdAt
      ensures (r.totalPages - 1) * limit < r.total <= r.totalPages * limit
      ensures r.jobs == [] <==> page > r.totalPages
    {
      ListJobsPage(jobs, f, page, limit);
      PageEmptyIffPastLast(jobs, f, page, limit);
      TotalPagesIsCeiling(|Select(jobs, f)|, limit);
      ListJobs(jobs, f, page, limit)
    }

    /** `updateUploadJobStatus(jobId, status, updates)`: `null` for an unknown id, otherwise the updated job. */
    method UpdateUploadJobStatus(jobId: ObjectId, status: JobStatus, updates: JobUpdates, now: int)
      returns (r: Option<UploadJob>)
      requires Valid()
      modifies this
      ensures Valid()
      ensures jobId < |old(jobs)| ==>
                r == Some(Updated(old(jobs)[jobId], status, updates, now)) && jobs == old(jobs)[jobId := r.value]
      ensures jobId >= |old(jobs)| ==> r.None? && jobs == old(jobs)
    {
      if jobId >= |jobs| {
        return None;
      }
      UpdateKeepsValid(jobs, jobId, status, updates, now);
      var job := Updated(jobs[jobId], status, updates, now);
      jobs := jobs[jobId := job];
      r := Some(job);
    }

    /** `incrementProcessedRecords(jobId, count = 1)`: nothing happens for an unknown id. */
    method IncrementProcessedRecords(jobId: ObjectId, now: int, count: int := 1)
      requires Valid()
      modifies this
      ensures Valid()
      ensures jobId < |old(jobs)| ==> jobs == old(jobs)[jobId := Incremented(old(jobs)[jobId], count, now)]
      ensures jobId >= |old(jobs)| ==> jobs == old(jobs)
    {
      if jobId < |jobs| {
        jobs := jobs[jobId := Incremented(jobs[jobId], count, now)];
      }
    }
  }
}
