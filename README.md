# Smart Reconciliation, modelled in Dafny

Smart Reconciliation takes CSV and Excel statements that users upload, turns each one into an upload job
holding transaction records, and reconciles the records of one job against the records of other jobs. The
rule engine tries EXACT_MATCH first: the same transaction id and amount. It then tries PARTIAL_MATCH: the
same reference number, with the amounts within a tolerance. It then tries DUPLICATE_DETECTION: the same
transaction id twice in one job. A record that no rule matches is UNMATCHED. A match creates results in
linked pairs, one for each of the two records.

Around the engine, the project models:
- the rule registry;
- the record, result, upload-job and audit-log schemas;
- chunked record insertion and the CSV row normaliser;
- the dashboard summary and the in-memory job queue;
- the upload-job table with hash idempotency and paging;
- the append-only audit log;
- the request sanitising and masking helpers;
- the bearer-token and role guards;
- the front end's status-colour tables.

Layout, one module per file:

| file | module | models |
|---|---|---|
| wrappers.dfy | `Wrappers` | `Option`, `Result` |
| text.dfy | `Text` | the JavaScript string built-ins used (`trim`, ASCII `toLowerCase`, `includes`, `replace`, `split(c).pop()`) |
| json.dfy | `Json` | JavaScript values as a datatype, truthiness, `a \|\| b \|\| …` |
| sorting.dfy | `Sorting`, `Chunking` | a sort by key (Mongo `.sort`), `slice(i, i + size)` chunking |
| paging.dfy | `Paging` | `skip`/`limit` windows and `Math.ceil(total / limit)` |
| rules.dfy | `Rules` | `reconciliationRules`, `getActiveRules`, `getRuleByName` |
| records.dfy | `Records` | the record schema and `Record.find(...).limit(n)` |
| results.dfy | `MatchResults` | the result schema, its unique index on `recordId`, status counters |
| engine_spec.dfy | `EngineSpec` | what each step of the engine computes, as functions of the stores |
| reconciliation.dfy | `Reconciliation` | class `ReconciliationService`; each method is proved equal to its `EngineSpec` function |
| engine_props.dfy | `EngineProperties` | precedence, symmetry, at most one result per record, counter arithmetic, idempotence |
| file_parser.dfy | `FileParser` | `parseFile` dispatch, `parseCsv`, `parseRow` |
| record_service.dfy | `RecordCreation` | class `RecordService`: chunked `createRecords`, `getRecordsByUploadJobId` |
| uploads.dfy | `Uploads` | the upload-job schema; class `UploadService` |
| dashboard.dfy | `Dashboard` | `getSummary`, `getRecentActivity` |
| queue.dfy | `JobQueue` | class `Queue` |
| audit.dfy | `Audit` | the audit-log schema and hooks; class `AuditService` |
| security.dfy | `Security` | `utils/security.ts` |
| auth.dfy | `Auth` | `authenticate`, `authorize` |
| helpers.dfy | `Helpers` | `getStatusColor`, `getRoleColor` |

Stores are sequences or maps. Ids are numbers drawn from a counter. The clock, the file hash, JWT
verification, the user lookup, the database's answer to `insertMany`, and `parseFloat`/`new Date` are
parameters of the operations that use them.

## Model

| member | source | states |
|---|---|---|
| Rules.EnabledOf | backend/src/config/reconciliationRules.ts:45 | The result holds exactly the table's enabled rules, drawn from the table. |
| Rules.ActiveRulesOf | backend/src/config/reconciliationRules.ts:43-47 | The active rules are exactly the enabled ones. They are a permutation of the filtered copy, sorted by ascending priority. |
| Rules.ShippedOrder | backend/src/config/reconciliationRules.ts:11-37 | The shipped table gives EXACT_MATCH (1), PARTIAL_MATCH (2), DUPLICATE_DETECTION (3), in that order. The view equals the table itself. |
| Rules.TableAllEnabled | backend/src/config/reconciliationRules.ts:11-37 | Filtering the shipped table keeps all of it. |
| Rules.RuleByNameOf | backend/src/config/reconciliationRules.ts:39-41 | Gives the first enabled rule with the name. Gives None exactly when no enabled rule has it. |
| Rules.ShippedLookup | backend/src/config/reconciliationRules.ts:39-41 | Each shipped name finds its rule. Any other name finds nothing. |
| Records.NewRecord | backend/src/models/Record.model.ts:16-61 | A record is built exactly when the trimmed transaction id and reference number are non-empty. It is well formed, keeps the given ids, amount and date, and `metadata` defaults to `{}`. |
| Records.SharedTransactionIdAllowed | backend/src/models/Record.model.ts:63-66 | No index is unique: two records of one job may share a transaction id in a valid store. |
| Records.Select | backend/src/services/reconciliation.service.ts:116-119 | `find(q)` gives exactly the matching stored records. |
| Records.Find | backend/src/services/reconciliation.service.ts:116-120 | `.limit(n)` gives the first `min(n, matches)` of the matches, in store order. |
| MatchResults.Build | backend/src/models/ReconciliationResult.model.ts:51-72 | The stored result carries the draft's fields. Confidence defaults to 1 and amountVariance to 0. A new result is not reviewed. |
| MatchResults.Create | backend/src/models/ReconciliationResult.model.ts:51-92 | A create succeeds exactly when the confidence lies in [0, 1] and the record has no result yet. Success adds exactly that entry. Failure names its cause and leaves the store unchanged. |
| MatchResults.CreatePreservesValid | backend/src/models/ReconciliationResult.model.ts:92 | A create keeps the store valid and never changes or removes an existing result. |
| MatchResults.Reviewed | backend/src/services/reconciliation.service.ts:334-358 | A review sets manuallyReviewed, reviewedBy and reviewedAt. Status and notes change only when given, and the notes are trimmed. Everything the engine wrote is unchanged. |
| MatchResults.ReviewPreservesInvariants | backend/src/services/reconciliation.service.ts:334-358 | A review keeps the store valid and every link mutual. |
| MatchResults.Bump | backend/src/services/reconciliation.service.ts:57 | Exactly the counter named by the status goes up by one. `total` is unchanged. |
| MatchResults.BucketsPartition | backend/src/services/reconciliation.service.ts:306-331 | The four status counts of a job sum to the number of its results. |
| Reconciliation.ReconciliationService.CreateReconciliationResult | backend/src/services/reconciliation.service.ts:255-281 | Performs exactly the fallible `Create` on the result store. |
| Reconciliation.ReconciliationService.ApplyExactMatchRule | backend/src/services/reconciliation.service.ts:111-160 | Result and new store equal `EngineSpec.ExactMatch`. |
| Reconciliation.ReconciliationService.ApplyPartialMatchRule | backend/src/services/reconciliation.service.ts:162-226 | Result and new store equal `EngineSpec.PartialMatch`: the candidates sharing the reference number, scanned in order. |
| Reconciliation.ReconciliationService.ScanCandidates | backend/src/services/reconciliation.service.ts:179-225 | The candidate loop equals `EngineSpec.PartialScan`: it pairs with the first candidate within tolerance that is not yet MATCHED or PARTIAL, and returns there. |
| Reconciliation.ReconciliationService.CreateMatchPair | backend/src/services/reconciliation.service.ts:131-155 | The two creates of a match equal `EngineSpec.CreatePair`: the counterpart's result first, then `rec`'s, and the first failure is returned. |
| Reconciliation.ReconciliationService.ApplyDuplicateDetectionRule | backend/src/services/reconciliation.service.ts:228-253 | Result and new store equal `EngineSpec.DuplicateDetection`. |
| Reconciliation.ReconciliationService.ApplyNamedRule | backend/src/services/reconciliation.service.ts:82-92 | The switch equals `EngineSpec.ApplyRule`. A name without a case yields nothing. |
| Reconciliation.ReconciliationService.ApplyRulesInOrder | backend/src/services/reconciliation.service.ts:76-108 | The rule loop with its UNMATCHED fallback equals `EngineSpec.RulesThenFallback`. |
| Reconciliation.ReconciliationService.ReconcileRecord | backend/src/services/reconciliation.service.ts:65-109 | Equals `EngineSpec.ReconcileRecord` over the service's rule list: an existing result comes back unchanged, otherwise the rules run in order, then the UNMATCHED fallback. |
| Reconciliation.ReconciliationService.constructor | backend/src/services/reconciliation.service.ts:76 | The service's rule list is the registry's table, which `Rules.ShippedOrder` shows is exactly what `getActiveRules()` returns. |
| Reconciliation.ReconciliationService.ReconcileUploadJob | backend/src/services/reconciliation.service.ts:20-63 | The chunked loop equals `EngineSpec.RunJob`: each record is visited once, in store order, and the first error aborts. |
| Reconciliation.ReconciliationService.ReconcileChunk | backend/src/services/reconciliation.service.ts:52-58 | One chunk extends the run over the records before it. |
| Reconciliation.ReconciliationService.GetReconciliationStats | backend/src/services/reconciliation.service.ts:306-332 | The intended query, with the id cast to an ObjectId: one count per status among the job's stored results, `total` is their sum, and nothing changes. See "## Findings". |
| MatchResults.StatsAsWritten | backend/src/services/reconciliation.service.ts:306-332 | The aggregation as written, for a `$match` value that is an ObjectId or a string: each counter is the size of its status bucket among the results the `$match` lets through, and `total` is their sum. |
| MatchResults.StringIdCountsNothing | backend/src/services/reconciliation.service.ts:306-309 | With a string id, as both callers pass, every counter and `total` are 0. |
| MatchResults.CastIdCountsJob | backend/src/services/reconciliation.service.ts:306-332 | With the id cast to an ObjectId, the counters are the job's per-status counts and `total` is its number of results. |
| MatchResults.StringMatchLosesResults | backend/src/services/reconciliation.service.ts:306-309 | For a job with a stored result, the query as written reports `total` 0 while the cast query reports a positive `total`. |
| Reconciliation.ReconciliationService.UpdateReconciliationResult | backend/src/services/reconciliation.service.ts:334-358 | Gives None for an unknown id. Otherwise it stores and returns the reviewed result. |
| EngineProperties.ReconcileRecordGrows | backend/src/services/reconciliation.service.ts:65-109 | Reconciling a record only adds results and keeps the store valid. |
| EngineProperties.ReconcileRecordStored | backend/src/services/reconciliation.service.ts:65-109 | The returned result is the one stored for the record: at most one result per record. |
| EngineProperties.ReconcileRecordKeepsSymmetric | backend/src/services/reconciliation.service.ts:65-109 | Reconciling one record keeps every `matchedWith` link mutual. |
| EngineProperties.PartialScanStored | backend/src/services/reconciliation.service.ts:179-225 | A result the candidate loop returns is the one stored for the record. |
| EngineProperties.RunRecordsTally | backend/src/services/reconciliation.service.ts:52-58 | After a successful run every record holds a result. Each record added one to the counter its result's status names. |
| EngineProperties.RunRecordsResolved | backend/src/services/reconciliation.service.ts:70-73 | When every record already has a result, the run changes nothing and reports the stored statuses. |
| EngineProperties.RunJobCounts | backend/src/services/reconciliation.service.ts:26-59 | A job without records gives all-zero counters and no change. Otherwise `total` is the record count and equals the sum of the four counters. |
| EngineProperties.RerunIsIdempotent | backend/src/services/reconciliation.service.ts:70-73 | Re-running on the store a run produced creates nothing and reports the same counters. |
| EngineProperties.RunJobKeepsSymmetric | backend/src/services/reconciliation.service.ts:133-155 | Every `matchedWith` link stays mutual: both results agree on rule, reason and confidence. This holds after success and after an abort. |
| EngineProperties.RunRecordsKeepsSymmetric | backend/src/services/reconciliation.service.ts:52-58 | Visiting the job's records one by one keeps every `matchedWith` link mutual, for any prefix of the run. |
| EngineProperties.RulesInPriorityOrder | backend/src/services/reconciliation.service.ts:76-108 | For an unreconciled record the order is EXACT_MATCH, then PARTIAL_MATCH, then DUPLICATE_DETECTION, then UNMATCHED. The first rule with a result or an error decides. |
| EngineProperties.CreatePairOutcome | backend/src/services/reconciliation.service.ts:133-155 | Both creates of a match happen exactly when the confidence is valid and neither record has a result. If the second create fails, the first is already stored. |
| EngineProperties.ExactMatchOutcome | backend/src/services/reconciliation.service.ts:116-159 | Only the first candidate is considered. A MATCHED candidate gives no result. Any other claimed candidate makes the create fail. |
| EngineProperties.PartialScanNone | backend/src/services/reconciliation.service.ts:179-225 | With no qualifying candidate the loop yields nothing and changes nothing. |
| EngineProperties.PartialScanFirst | backend/src/services/reconciliation.service.ts:179-221 | The loop pairs with the first qualifying candidate. Confidence is 1 − ratio and variance is the absolute difference. |
| EngineProperties.ZeroAmountNeverPartial | backend/src/services/reconciliation.service.ts:181-183 | A zero amount never partially matches. |
| EngineProperties.NegativeAmountAborts | backend/src/services/reconciliation.service.ts:181-205 | A negative amount passes the tolerance test. When the amounts differ, the confidence exceeds 1 and the create fails. |
| EngineProperties.DuplicateOutcome | backend/src/services/reconciliation.service.ts:233-252 | The rule fires exactly when a sibling in the job shares the transaction id. It marks only this record DUPLICATE, with no counterpart. |
| EngineProperties.UnmatchedWhenNoRuleFires | backend/src/services/reconciliation.service.ts:99-108 | When no rule fires, an UNMATCHED result is stored with ruleName 'UNMATCHED', the no-match reason and no counterpart. |
| EngineProperties.UnknownRuleSkipped | backend/src/services/reconciliation.service.ts:82-92 | A rule name without a case can be removed without changing anything. |
| EngineProperties.OnlyRuleNamesMatter | backend/src/services/reconciliation.service.ts:177 | Rules with the same names give the same run whatever their criteria. The tolerance comes from the configuration. |
| Chunking.ChunksCover | backend/src/services/record.service.ts:15-17 | Flattening the chunks gives back the sequence: each element is visited once, in order. |
| Chunking.ChunksFull | backend/src/services/record.service.ts:15-17 | Every chunk is non-empty and at most `size` long. |
| Sorting.SortBy | backend/src/services/upload.service.ts:60-64 | The sorted sequence is a permutation of the input, ordered by the key. |
| Sorting.InsertSorted | backend/src/services/upload.service.ts:60-64 | Inserting into a sorted sequence keeps it sorted. |
| FileParser.NormalizeKey | backend/src/services/fileParser.service.ts:123 | The key comes out trimmed, lower case, with each white-space run replaced by one `_`. |
| FileParser.CollapseSpaces | backend/src/services/fileParser.service.ts:123 | The output has no white space and only the input's characters or `_`. Text without white space is unchanged. |
| FileParser.NormalizeKeyIdempotent | backend/src/services/fileParser.service.ts:123 | Normalising twice is normalising once. |
| FileParser.NormalizedKeys | backend/src/services/fileParser.service.ts:121-125 | The normalised row has exactly the normalised column names. |
| FileParser.LastColumnWins | backend/src/services/fileParser.service.ts:122-125 | Of two columns with the same normalised name, the later one's value is kept. |
| FileParser.NormalizedKeysAreNormal | backend/src/services/fileParser.service.ts:121-125 | Every key is trimmed, lower case and free of white space. |
| FileParser.ParseRow | backend/src/services/fileParser.service.ts:119-194 | The key loop followed by the checks equals `RowOf`. |
| FileParser.BuildRowChecks | backend/src/services/fileParser.service.ts:162-183 | Errors come in source order: missing id, missing amount, missing date, invalid amount, invalid date. A row passes exactly when all checks hold. |
| FileParser.SuccessValue | backend/src/services/fileParser.service.ts:185-193 | A parsed row is the computed fields with the normalised columns spread over them. |
| FileParser.ParsedRowKeys | backend/src/services/fileParser.service.ts:185-193 | The keys are the columns plus the six computed fields. |
| FileParser.ParsedRowKeepsColumns | backend/src/services/fileParser.service.ts:192 | Every normalised column survives unchanged. |
| FileParser.CamelCaseFieldsSurvive | backend/src/services/fileParser.service.ts:185-192 | The computed transactionId, referenceNumber and sourceSystem are never overridden. |
| FileParser.CamelCaseNamesNeverColumns | backend/src/services/fileParser.service.ts:123 | No normalised column is named transactionId, referenceNumber or sourceSystem, because normalised keys are lower case. |
| FileParser.LowerCaseFieldsOverridden | backend/src/services/fileParser.service.ts:185-192 | An `amount` or `date` column replaces the parsed value with the raw cell. |
| FileParser.ReferenceFallsBackToTransactionId | backend/src/services/fileParser.service.ts:134-140 | Without a truthy reference column, the reference is the transaction id. |
| FileParser.CsvOf | backend/src/services/fileParser.service.ts:44-58 | Each line lands in `rows` or in `errors`, numbered from 1. `totalRows` is the line count. |
| FileParser.ParseCsv | backend/src/services/fileParser.service.ts:36-65 | The row loop equals `CsvOf` of the per-line outcomes. |
| FileParser.ExtName | backend/src/services/fileParser.service.ts:25 | `path.extname`: runs from the last dot of the last segment. It is empty without a dot, for a leading-only dot, and for `..`. |
| FileParser.FormatOf | backend/src/services/fileParser.service.ts:24-34 | `.csv` gives CSV and `.xlsx`/`.xls` give Excel, in any case. Anything else fails with the extension. |
| FileParser.FormatOfJoin | backend/src/services/fileParser.service.ts:24-34 | A name is dispatched on its own extension, ignoring case. |
| FileParser.NoDotRefused | backend/src/services/fileParser.service.ts:24-34 | A last segment without a dot is refused. |
| FileParser.DotFileRefused | backend/src/services/fileParser.service.ts:24-34 | A last segment whose only dot leads it is refused. |
| RecordCreation.Docs | backend/src/services/record.service.ts:20-29 | Each document copies the row's fields, takes the job id, and keeps the whole row as metadata. |
| RecordCreation.IngestAccounts | backend/src/services/record.service.ts:30-48 | Each chunk adds created + errors equal to its length. |
| RecordCreation.NextChunk | backend/src/services/record.service.ts:15-17 | The next chunk starts where the last ended and holds `min(size, remaining)` rows. |
| RecordCreation.Rejected | backend/src/services/record.service.ts:36-39 | Exactly the chunk positions the database reported as failed. |
| RecordCreation.Kept | backend/src/services/record.service.ts:36-39 | The stored documents are the chunk minus its rejected positions: `inserted = chunk.length − writeErrors.length`. |
| RecordCreation.CreatedPlusErrors | backend/src/services/record.service.ts:11-53 | `created + errors` equals the number of rows, for any chunk size and any database answers. |
| RecordCreation.IngestStoresRowDocs | backend/src/services/record.service.ts:20-31 | Every stored document is the document of one of the rows. |
| RecordCreation.AllInsertedStoresEveryRow | backend/src/services/record.service.ts:31-32 | When every insert succeeds, every row is stored in order and nothing is an error. |
| RecordCreation.AllFailedStoresNothing | backend/src/services/record.service.ts:45-48 | When every insert fails outright, nothing is stored and every row is an error. |
| RecordCreation.RecordService.CreateRecords | backend/src/services/record.service.ts:7-54 | The chunk loop's counters and stored documents equal `Ingest` over the chunks. |
| RecordCreation.RecordService.StoreChunk | backend/src/services/record.service.ts:30-48 | Stores what the database accepted. Returns the try, writeErrors or catch counts. |
| RecordCreation.RecordService.GetRecordsByUploadJobId | backend/src/services/record.service.ts:56-58 | Gives exactly the stored documents of that job, in order. |
| RecordCreation.OfJob | backend/src/services/record.service.ts:56-58 | A document is listed exactly when it is stored and belongs to the job. |
| RecordCreation.ParsedRowDoc | backend/src/services/record.service.ts:20-29 | A stored document of a parsed row keeps the row's computed transaction id, reference and source system. |
| Paging.TotalPagesIsCeiling | backend/src/services/upload.service.ts:71 | `(totalPages − 1)·limit < total ≤ totalPages·limit`. |
| Paging.WindowEmptyIffPastLast | backend/src/services/upload.service.ts:57-72 | A page is empty exactly when its number exceeds `totalPages`. |
| Uploads.HttpStatus | backend/src/services/upload.service.ts:17-25 | A duplicate answers 409. A validation error answers 500. |
| Uploads.FindByHash | backend/src/services/upload.service.ts:17-19 | Gives the first job with the hash. Gives None exactly when no job has it. |
| Uploads.Missing | backend/src/models/UploadJob.model.ts:27-45 | The failed required validators, in schema order. Empty exactly when all fields are present. |
| Uploads.CreateOutcome | backend/src/services/upload.service.ts:7-45 | A known hash gives 409 naming its job. Otherwise a job is created exactly when the required fields are present. |
| Uploads.CreatedJob | backend/src/models/UploadJob.model.ts:46-66 | A new job is PROCESSING with zero counts and the given fields. |
| Uploads.CreateKeepsValid | backend/src/models/UploadJob.model.ts:32-37 | A create keeps hashes unique and the table valid. |
| Uploads.SecondUploadRefused | backend/src/services/upload.service.ts:17-25 | Re-uploading the same hash under any name is refused with 409 naming the stored job. |
| Uploads.UpdatedFields | backend/src/services/upload.service.ts:81-97 | `completedAt` is stamped exactly for COMPLETED and FAILED. Given fields are overwritten and the others kept. |
| Uploads.UpdateKeepsValid | backend/src/services/upload.service.ts:76-98 | An update keeps the table valid: a finished job has a completion time. |
| Uploads.Select | backend/src/services/upload.service.ts:57-62 | `find(filters)` gives exactly the matching jobs. |
| Uploads.SelectComplete | backend/src/services/upload.service.ts:57-62 | No matching job is missed by the filter. |
| Uploads.ListJobsPage | backend/src/services/upload.service.ts:51-74 | At most `limit` matching jobs, newest first. `total` counts all matches and the page is echoed. |
| Uploads.ListJobsMembers | backend/src/services/upload.service.ts:57-65 | Every job on a page is a stored job that passes the filters. |
| Uploads.ListJobsOrdered | backend/src/services/upload.service.ts:60-64 | A page lists its jobs by non-increasing `createdAt`. |
| Uploads.PageEmptyIffPastLast | backend/src/services/upload.service.ts:57-72 | A page is empty exactly when it lies past `totalPages`. |
| Uploads.FirstPageHoldsAll | backend/src/services/upload.service.ts:57-64 | When all matches fit, page 1 lists all of them. |
| Uploads.StatusCountsPartition | backend/src/models/UploadJob.model.ts:3-7 | Per owner, the three status counts sum to the job count. |
| Uploads.UploadService.CreateUploadJob | backend/src/services/upload.service.ts:7-45 | Result and new table equal `Create`. |
| Uploads.UploadService.GetUploadJobs | backend/src/services/upload.service.ts:51-74 | At most `limit` jobs, each a stored job that passes the filters, newest first. `total` counts every match and `page` is echoed. `totalPages` is the ceiling of `total / limit`, and the page is empty exactly when it lies past the last page. |
| Uploads.UploadService.UpdateUploadJobStatus | backend/src/services/upload.service.ts:76-98 | Gives None for an unknown id. Otherwise the job becomes `Updated` and nothing else changes. |
| Uploads.UploadService.IncrementProcessedRecords | backend/src/services/upload.service.ts:100-104 | `processedRecords` goes up by `count` (default 1). An unknown id changes nothing. |
| Dashboard.OwnerFilter | backend/src/controllers/dashboard.controller.ts:15-18 | There is no owner filter exactly for ADMIN. Anyone else is filtered to their own id. |
| Dashboard.SumStatsAppend | backend/src/controllers/dashboard.controller.ts:48-61 | Totals over consecutive runs of jobs add up. |
| Dashboard.SkippedJobAddsNothing | backend/src/controllers/dashboard.controller.ts:58-60 | A job whose stats lookup throws contributes nothing. |
| Dashboard.SumKeepsTotals | backend/src/controllers/dashboard.controller.ts:53-57 | When each stats' total is the sum of its counters, the sum of stats has the same property. |
| Dashboard.SumOfStringMatchedStats | backend/src/controllers/dashboard.controller.ts:48-61 | With `getReconciliationStats` as written, called with `job._id.toString()`, the summed reconciliation figures are all zero. |
| Dashboard.SumCompleted | backend/src/controllers/dashboard.controller.ts:40-61 | The loop equals `SumStats`. |
| Dashboard.GetSummary | backend/src/controllers/dashboard.controller.ts:10-75 | The counts are the four query totals. The reconciliation figures are the completed jobs' summed stats. `recentJobs` is the first 10 of all jobs. |
| Dashboard.OwnJobsOnly | backend/src/controllers/dashboard.controller.ts:15-37 | A non-ADMIN sees only their own jobs. |
| Dashboard.AdminSeesAll | backend/src/controllers/dashboard.controller.ts:15-18 | An ADMIN's selection is the whole table. |
| Dashboard.SummaryShape | backend/src/controllers/dashboard.controller.ts:20-71 | All = completed + processing + failed. At most 1000 completed jobs are summed and at most 10 recent jobs listed, newest first. |
| Dashboard.SummaryCounts | backend/src/controllers/dashboard.controller.ts:20-37 | With no status filter, the total job count is the sum of the COMPLETED, PROCESSING and FAILED counts. |
| Dashboard.RecentActivity | backend/src/controllers/dashboard.controller.ts:76-97 | Page 1, with at most `limit` jobs (20 when absent), all stored and newest first. A non-ADMIN gets only their own jobs, and `total` counts them. For an ADMIN `total` counts every job. |
| JobQueue.OrDefault | backend/src/queues/Queue.ts:33-37 | A missing or zero option takes the fallback. |
| JobQueue.FirstReadyFrom | backend/src/queues/Queue.ts:100-107 | Gives the first pending job that is not processing. Gives None exactly when there is none. |
| JobQueue.Pick | backend/src/queues/Queue.ts:72-82 | Nothing starts without a processor, at the concurrency cap, or with no ready job. Otherwise the first ready job starts. |
| JobQueue.FailureRetriesWhileAttemptsRemain | backend/src/queues/Queue.ts:122-147 | A failed job goes back to pending exactly while attempts < maxAttempts. The error is kept. |
| JobQueue.RunKeepsJobOk | backend/src/queues/Queue.ts:79-147 | Start then either outcome keeps attempts within their cap. |
| JobQueue.AddKeepsOk | backend/src/queues/Queue.ts:42-54 | Appending a fresh pending job with 0 attempts and the queue's options keeps the queue valid. |
| JobQueue.StartKeepsOk | backend/src/queues/Queue.ts:72-83 | Starting a ready job under the concurrency cap keeps the queue valid. |
| JobQueue.FinishKeepsOk | backend/src/queues/Queue.ts:109-148 | Settling a processing job either way and releasing its slot keeps the queue valid. |
| JobQueue.CountsAddUp | backend/src/queues/Queue.ts:154-174 | The four status counts sum to the job count. |
| JobQueue.Queue.constructor | backend/src/queues/Queue.ts:31-40 | Defaults are 3 attempts, 5000 ms retry delay and concurrency 5. |
| JobQueue.Queue.GetNextPendingJob | backend/src/queues/Queue.ts:100-107 | The scan equals `FirstReadyFrom` from position 0. |
| JobQueue.Queue.StartNext | backend/src/queues/Queue.ts:72-83 | Starts exactly the job `Pick` names: status processing, attempts + 1, processingCount + 1. |
| JobQueue.Queue.Process | backend/src/queues/Queue.ts:66-70 | Registers the processor, then starts as `StartNext` does. |
| JobQueue.Queue.Add | backend/src/queues/Queue.ts:42-64 | Appends a pending job with 0 attempts and the queue's options, then starts as `StartNext` does. |
| JobQueue.Queue.Finish | backend/src/queues/Queue.ts:84-148 | Completes or fails the job, then removes it from processing and decrements the count. The queue stays valid. |
| JobQueue.Queue.GetJob | backend/src/queues/Queue.ts:150-152 | Gives the job with that id, if any. |
| JobQueue.Queue.GetStats | backend/src/queues/Queue.ts:154-174 | The counting loop equals `StatsOf(jobs)`. |
| JobQueue.StatsConsistent | backend/src/queues/Queue.ts:154-174 | In a valid queue the counts sum to the total. processingCount = \|processing\| ≤ concurrency. |
| Audit.HelperActions | backend/src/services/audit.service.ts:40-122 | The helpers log CREATE, UPDATE, RECONCILE and REVIEW. CREATE and RECONCILE carry no old value. |
| Audit.Missing | backend/src/models/AuditLog.model.ts:24-59 | The failed required validators, after trimming. |
| Audit.EntryCarriesData | backend/src/services/audit.service.ts:17-30 | An entry carries every given field (strings trimmed) and the write time. |
| Audit.HookError | backend/src/models/AuditLog.model.ts:85-108 | Each update hook rejects with 'Audit logs cannot be updated'. Each delete hook rejects with 'Audit logs cannot be deleted'. |
| Audit.QueryMeaning | backend/src/services/audit.service.ts:141-167 | Each given filter is an equality and absent ones impose nothing. The date range is inclusive. |
| Audit.SelectLogs | backend/src/services/audit.service.ts:169-172 | Gives exactly the stored entries satisfying the query. |
| Audit.SelectLogsComplete | backend/src/services/audit.service.ts:169-172 | No matching entry is missed by the query. |
| Audit.ListLogsPage | backend/src/services/audit.service.ts:124-186 | At most `limit` matching entries. `total` counts every match. |
| Audit.ListLogsNewestFirst | backend/src/services/audit.service.ts:169-172 | Entries come newest first. |
| Audit.ListLogsPaging | backend/src/services/audit.service.ts:174-185 | `totalPages` is the ceiling of total / limit. A page past the last is empty, and only such a page. |
| Audit.EntityFilterSelectsEntity | backend/src/services/audit.service.ts:188-200 | For a non-empty type, the entity listing selects exactly that entity's logs. |
| Audit.EmptyEntityTypeIgnored | backend/src/services/audit.service.ts:145-147 | An empty entity type is dropped, so the listing matches on the id alone. |
| Audit.HistoryIsEntityLogs | backend/src/services/audit.service.ts:202-209 | The history holds exactly the entity's logs, oldest first. |
| Audit.EntityLogs | backend/src/services/audit.service.ts:202-206 | Only that entity's entries, drawn from the log. |
| Audit.OtherEntityLeavesHistory | backend/src/services/audit.service.ts:202-209 | An entry about another entity leaves a history unchanged. |
| Audit.AuditService.Log | backend/src/services/audit.service.ts:17-38 | Appends the entry, or fails validation and writes nothing. |
| Audit.AuditService.LogCreate | backend/src/services/audit.service.ts:40-58 | Logs `CreateData`. |
| Audit.AuditService.LogUpdate | backend/src/services/audit.service.ts:60-80 | Logs `UpdateData`. |
| Audit.AuditService.LogReconcile | backend/src/services/audit.service.ts:82-100 | Logs `ReconcileData`. |
| Audit.AuditService.LogReview | backend/src/services/audit.service.ts:102-122 | Logs `ReviewData`. |
| Audit.AuditService.Mutate | backend/src/models/AuditLog.model.ts:85-108 | Each of the six hooked query operations is rejected with its hook's message, and the log is untouched. |
| Audit.AuditService.BuildQuery | backend/src/services/audit.service.ts:141-167 | Field-by-field construction equals `QueryOf`. |
| Audit.AuditService.GetAuditLogs | backend/src/services/audit.service.ts:124-186 | Page 1 and limit 50 by default. At most `limit` stored entries that satisfy the filters' query, newest first. `total` counts every match, `totalPages` is the ceiling of `total / limit`, and a page is empty exactly past the last page. |
| Audit.AuditService.GetAuditLogsForEntity | backend/src/services/audit.service.ts:188-200 | At most `limit` of the entity's entries, newest first. For a non-empty type every entry has that type and id, and `total` counts exactly the entity's entries. An empty type matches on the id alone. |
| Audit.AuditService.GetAuditHistory | backend/src/services/audit.service.ts:202-209 | Exactly the entity's entries (as a multiset), each drawn from the log, in ascending timestamp order. |
| Security.SanitizeString | backend/src/utils/security.ts:9-11 | No `<` or `>`, trimmed, not longer than the input, characters drawn from the input. |
| Security.SanitizeStringIdempotent | backend/src/utils/security.ts:9-11 | Sanitising twice is sanitising once. |
| Security.PlainTextUntouched | backend/src/utils/security.ts:9-11 | Text with no angle brackets and no white space is unchanged. |
| Security.SanitizeInput | backend/src/utils/security.ts:6-12 | Strings are sanitised. Other values pass through. |
| Security.SanitizeObject | backend/src/utils/security.ts:17-34 | Arrays keep their length and objects exactly their own keys. Scalars and null are unchanged. |
| Security.SanitizeObjectIsClean | backend/src/utils/security.ts:17-34 | The output is clean at every depth. |
| Security.SanitizeObjectKeepsClean | backend/src/utils/security.ts:17-34 | A value that is already clean is left as it is. |
| Security.SanitizeObjectIdempotent | backend/src/utils/security.ts:17-34 | Sanitising a request twice is sanitising it once. |
| Security.MaskSensitiveData | backend/src/utils/security.ts:46-69 | Arrays keep their length and objects their keys. Non-object values are returned as they are. |
| Security.MaskHidesSecrets | backend/src/utils/security.ts:56-66 | At every depth, a key whose lower-case form is listed holds '***MASKED***'. |
| Security.MaskKeepsMasked | backend/src/utils/security.ts:46-69 | A value already masked at every depth is left as it is. |
| Security.MaskIdempotent | backend/src/utils/security.ts:46-69 | Masking twice is masking once. |
| Security.DefaultFieldsIgnoreCase | backend/src/utils/security.ts:46-59 | With the defaults, password, token and secret keys in any case are masked. |
| Security.PlainFieldCopied | backend/src/utils/security.ts:62-64 | A non-sensitive scalar field is copied unchanged. |
| Security.Extension | backend/src/utils/security.ts:75 | The text after the last dot, in lower case: it contains no dot. |
| Security.FileTypeByLastExtension | backend/src/utils/security.ts:74-77 | `stem.ext` is valid exactly when `ext` is non-empty and its lower-case form is allowed. |
| Security.FileTypeWithoutDot | backend/src/utils/security.ts:74-77 | A name without a dot is checked whole. |
| Security.ContainsInjectionPatterns | backend/src/utils/security.ts:82-89 | True exactly when some listed token occurs in the lower-cased input. |
| Security.TokenAnywhereDetected | backend/src/utils/security.ts:82-89 | A token in any letter case, anywhere in the input, is detected. |
| Security.InjectionIgnoresCase | backend/src/utils/security.ts:82-89 | An input and its lower-case form are flagged alike. |
| Security.RateLimitKey | backend/src/utils/security.ts:94-96 | The key starts with "ratelimit:". Its length is 11 + \|action\| + \|identifier\|. |
| Security.RateLimitKeyInjective | backend/src/utils/security.ts:94-96 | For colon-free actions, the key determines the action and the identifier. |
| Auth.BearerToken | backend/src/middleware/auth.middleware.ts:18-22 | A token exists exactly when the header starts with "Bearer ". The header is "Bearer " + token. |
| Auth.Authentication | backend/src/middleware/auth.middleware.ts:15-32 | Every failure is 401. 'No token provided' is given exactly for a missing or non-Bearer header. Success means the token verified to that payload and its user exists and is active. |
| Auth.ActiveUserAccepted | backend/src/middleware/auth.middleware.ts:22-32 | A verified token of an active user is accepted with its payload. |
| Auth.UnverifiedTokenRefused | backend/src/services/auth.service.ts:31-37 | A bearer token that fails verification is refused with 401 'Invalid or expired token'. |
| Auth.InactiveUserRefused | backend/src/middleware/auth.middleware.ts:26-29 | A missing or inactive user gives 'User no longer exists or is inactive'. |
| Auth.Authenticate | backend/src/middleware/auth.middleware.ts:10-36 | On success req.user is set and next() gets no error. On failure the error goes to next and req.user is unchanged. |
| Auth.Authorize | backend/src/middleware/auth.middleware.ts:38-53 | Admits exactly a user whose role is allowed. No user gives 401. A disallowed role gives 403 listing the roles. |
| Auth.AuthorizeMonotone | backend/src/middleware/auth.middleware.ts:44-51 | Allowing more roles never refuses an admitted user. |
| Auth.AuthorizeNoRoles | backend/src/middleware/auth.middleware.ts:44-49 | `authorize()` with no roles refuses everybody. |
| Helpers.GetStatusColor | frontend/src/utils/helpers.ts:7-19 | A known status gives its table entry. Any other gives the gray default. |
| Helpers.GetRoleColor | frontend/src/utils/helpers.ts:21-28 | A known role gives its table entry. Any other gives the viewer gray. |
| Helpers.StatusGrayIffPendingOrUnknown | frontend/src/utils/helpers.ts:11-18 | Gray exactly for PENDING and unknown statuses. |
| Helpers.SharedStatusColours | frontend/src/utils/helpers.ts:9-15 | Success exactly for COMPLETED and MATCHED. Danger exactly for FAILED and UNMATCHED. |
| Helpers.RoleGrayIffViewerOrUnknown | frontend/src/utils/helpers.ts:25-27 | Viewer gray exactly for VIEWER and unknown roles. |
| Helpers.ModelStatusesColoured | frontend/src/utils/helpers.ts:8-17 | Every job and result status has its own, non-gray entry. |
| Helpers.StatusColoursDistinct | frontend/src/utils/helpers.ts:8-17 | Distinct result statuses differ in colour, and so do distinct job statuses. |

## Left out

- Stores: records, results, upload jobs and audit logs are sequences or maps. Mongo queries, `populate` and `lean` are modelled by what they select. Ids are counters, not ObjectIds. The one aggregation pipeline, in `getReconciliationStats`, is modelled both as written and as intended (see "## Findings").
- Amounts: amounts are exact reals. The two-decimal `toFixed` text of the partial-match reason is not modelled.
- `parseExcel` is not modelled, because it is ExcelJS workbook traversal. Its row conversion goes through `parseRow`, which is modelled.
- csv-parser: the CSV reader itself is not modelled. `FileParser.ParseCsv` takes the lines it emits.
- `parseFloat` and `new Date` are parameters, given with a validity test.
- I/O: the stream `error` path, file system access, logging, the controllers other than the dashboard's, routes, request validation and the upload worker are not modelled.
- Concurrency: async steps run as atomic steps in sequence. Concurrent requests and `Promise.all` interleavings are not modelled.
- `Reconciliation.ReconciliationService.ReconcileUploadJob` requires a positive chunk size, because the source loop does not terminate otherwise.
- `RecordCreation.RecordService.CreateRecords` requires a positive chunk size, for the same reason.
- `RecordCreation.RecordService.CreateRecords` does not model documents that an unordered `insertMany` drops silently. A document whose `amount` fails the Number cast (a raw cell such as "1,234.56", which the trailing spread of the normalised cells in `parseRow` puts back over the parsed number), or whose trimmed `transactionId` is empty and fails `required`, is skipped while the call still resolves, and the source then counts the whole chunk as created. In the model every document of a resolved insert is stored.
- `RecordCreation.RecordService.StoreChunk` has the same gap: its `Inserted` outcome stores the whole chunk and counts it as created, whereas the resolved source call may have stored fewer documents than it counts.
- `RecordCreation.AllInsertedStoresEveryRow` is stated for the model's `Inserted` outcome. It does not hold of the source when a resolved `insertMany` has skipped invalid documents, which are still counted as created.
- `JobQueue.Queue.Add` requires the caller to supply an unused id. The source draws random ids, and their collisions are not modelled.
- `JobQueue.Queue.Finish` models the processor's settlement as an input. The `setTimeout` retry delay, `setImmediate` and the emitted events are not modelled. Neither are the two cleanup timers that delete a completed job (after one minute) or a permanently failed job (after five minutes) from the queue, so the model's job list never shrinks and `getJob` and `getStats` keep counting such jobs.
- `Uploads.ListJobs` requires page ≥ 1 and limit ≥ 1. In Mongo a zero limit means "no limit" and a page below 1 gives a negative skip; neither is modelled.
- `Audit.ListLogs` requires page ≥ 1 and limit ≥ 1, for the same reason.
- `Uploads.JobUpdates` covers `totalRecords`, `processedRecords` and `errorMessage`, the fields callers pass. Other update keys are not modelled.
- `Text.Lower` maps only ASCII letters. Non-ASCII case mapping of `toLowerCase` is not modelled.
- `Security.SanitizeObject` does not model an own key named `hasOwnProperty`: in the source `obj.hasOwnProperty(key)` then calls a non-function and throws, while the model keeps the key.
- `Security.SanitizeObject` does not model an own key named `__proto__` (which `JSON.parse` creates): in the source the assignment to `sanitized['__proto__']` sets the prototype or is ignored, so the key is lost, while the model keeps it.
- `Security.MaskSensitiveData` does not model the same two keys, `hasOwnProperty` (the source throws) and `__proto__` (the source loses the key), for the same reasons.
- `Security.SanitizeObject` and `Security.MaskSensitiveData` take JSON-like values. Class instances with inherited properties, functions, symbols and BigInt are not modelled. A `Date` becomes `{}`, as in the source, because it has no own enumerable keys.
- `generateSecureToken` is not modelled, because it only draws random bytes.
- `Auth.Authentication` receives JWT verification and the user lookup as parameters. A database error from the user lookup is not modelled.
- `Audit.AuditService.Mutate` covers the six hooked query operations. Writes no hook intercepts (`replaceOne`, `findOneAndReplace`, `bulkWrite`, and `save()` of a loaded, modified entry) do change the log in the source and are not modelled.
- `Dashboard.RecentActivity` takes the `limit` already converted by `parseInt`. A value that is not a number, or below 1, is outside the model, as for `Uploads.ListJobs`.
- `Helpers.GetStatusColor` and `Helpers.GetRoleColor` do not model keys inherited from `Object.prototype`, such as "constructor". In the source those return a non-string.

## Findings

| source | as written | input that shows it | evidently intended | confidence | as-written member | corrected member |
|---|---|---|---|---|---|---|
| backend/src/services/reconciliation.service.ts:306-309 | `$match: { uploadJobId: uploadJobId as any }` passes the string id into an aggregation stage. Aggregation is not cast to the schema, and the stored `uploadJobId` is an ObjectId (backend/src/models/ReconciliationResult.model.ts:34-38), so nothing matches. Both callers pass a string (reconciliation.controller.ts:40, dashboard.controller.ts:50), so every counter is 0 (`MatchResults.StringIdCountsNothing`, `MatchResults.StringMatchLosesResults`) and so are the dashboard's reconciliation totals (`Dashboard.SumOfStringMatchedStats`). | A job whose run stored 3 MATCHED results: as written `{total: 0, matched: 0, …}`, intended `{total: 3, matched: 3, …}`. | The id cast to an ObjectId before the `$match`, giving the job's per-status counts (`MatchResults.CastIdCountsJob`). | medium (Mongoose does not cast aggregation stages); not executed | MatchResults.StatsAsWritten | Reconciliation.ReconciliationService.GetReconciliationStats |
