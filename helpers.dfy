/** The badge colours of frontend/src/utils/helpers.ts: fixed tables of Tailwind class strings, with a gray
    default for anything the table does not name. */
module Helpers {
  import Uploads
  import MatchResults

  const SuccessClass: string := "bg-success-50 text-success-700 border-success-200"
  const PrimaryClass: string := "bg-primary-50 text-primary-700 border-primary-200"
  const GrayClass: string := "bg-gray-50 text-gray-700 border-gray-200"
  const DangerClass: string := "bg-danger-50 text-danger-700 border-danger-200"
  const WarningClass: string := "bg-warning-50 text-warning-700 border-warning-200"
  const PurpleClass: string := "bg-purple-50 text-purple-700 border-purple-200"

  /** The status table of `getStatusColor`. */
  const StatusColors: map<string, string> := map[
    "COMPLETED" := SuccessClass,
    "PROCESSING" := PrimaryClass,
    "PENDING" := GrayClass,
    "FAILED" := DangerClass,
    "MATCHED" := SuccessClass,
    "PARTIAL" := WarningClass,
    "UNMATCHED" := DangerClass,
    "DUPLICATE" := PurpleClass
  ]

  const AdminClass: string := "bg-purple-100 text-purple-800"
  const AnalystClass: string := "bg-blue-100 text-blue-800"
  const ViewerClass: string := "bg-gray-100 text-gray-800"

  /** The role table of `getRoleColor`. */
  const RoleColors: map<string, string> := map[
    "ADMIN" := AdminClass,
    "ANALYST" := AnalystClass,
    "VIEWER" := ViewerClass
  ]

  /** `table[key] || fallback`: a missing entry reads as `undefined`, and an empty one would be falsy too. */
  function LookupOr(table: map<string, string>, key: string, fallback: string): (r: string)
    ensures key in table && table[key] != "" ==> r == table[key]
    ensures key !in table || table[key] == "" ==> r == fallback
  {
    var found := if key in table then table[key] else "";
    if found != "" then found else fallback
  }

  /** `getStatusColor(status)`. */
  function GetStatusColor(status: string): (r: string)
    ensures status in StatusColors ==> r == StatusColors[status]
    ensures status !in StatusColors ==> r == GrayClass
  {
    LookupOr(StatusColors, status, GrayClass)
  }

  /** `getRoleColor(role)`. */
  function GetRoleColor(role: string): (r: string)
    ensures role in RoleColors ==> r == RoleColors[role]
    ensures role !in RoleColors ==> r == ViewerClass
  {
    LookupOr(RoleColors, role, ViewerClass)
  }

  /** A status shares its colour with the gray default exactly when it is PENDING or not a known status. */
  lemma StatusGrayIffPendingOrUnknown(status: string)
    ensures GetStatusColor(status) == GrayClass <==> status == "PENDING" || status !in StatusColors
  {
  }

  /** Completed jobs and matched records share the success colour; failed jobs and unmatched records share
      the danger colour; no other status has either. */
  lemma SharedStatusColours(status: string)
    ensures GetStatusColor(status) == SuccessClass <==> status == "COMPLETED" || status == "MATCHED"
    ensures GetStatusColor(status) == DangerClass <==> status == "FAILED" || status == "UNMATCHED"
  {
  }

  /** A role is shown in the viewer's gray exactly when it is VIEWER or not a known role. */
  lemma RoleGrayIffViewerOrUnknown(role: string)
    ensures GetRoleColor(role) == ViewerClass <==> role == "VIEWER" || role !in RoleColors
  {
  }

  /** The name a job status is serialised with. */
  function JobStatusName(s: Uploads.JobStatus): string {
    match s
    case PROCESSING => "PROCESSING"
    case COMPLETED => "COMPLETED"
    case FAILED => "FAILED"
  }

  /** The name a reconciliation status is serialised with. */
  function ResultStatusName(s: MatchResults.Status): string {
    match s
    case MATCHED => "MATCHED"
    case PARTIAL => "PARTIAL"
    case UNMATCHED => "UNMATCHED"
    case DUPLICATE => "DUPLICATE"
  }

  /** Every status an upload job or a reconciliation result can have gets a colour of its own table entry,
      never the gray of an unknown status. */
  lemma ModelStatusesColoured(j: Uploads.JobStatus, s: MatchResults.Status)
    ensures JobStatusName(j) in StatusColors && GetStatusColor(JobStatusName(j)) != GrayClass
    ensures ResultStatusName(s) in StatusColors && GetStatusColor(ResultStatusName(s)) != GrayClass
  {
  }

  /** The four reconciliation statuses are told apart by colour, and so are the three job statuses. */
  lemma StatusColoursDistinct(a: MatchResults.Status, b: MatchResults.Status, j: Uploads.JobStatus, k: Uploads.JobStatus)
    requires a != b && j != k
    ensures GetStatusColor(JobStatusName(j)) != GetStatusColor(JobStatusName(k))
    ensures GetStatusColor(ResultStatusName(a)) != GetStatusColor(ResultStatusName(b))
  {
  }
}
