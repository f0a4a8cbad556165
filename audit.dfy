/** The audit trail: the append-only log of backend/src/models/AuditLog.model.ts and the service of
    backend/src/services/audit.service.ts that writes it and lists it filtered, paged and sorted. */
module Audit {
  import opened Wrappers
  import opened Text
  import opened Sorting
  import opened Paging
  import Json
  import Records

  type ObjectId = Records.ObjectId

  /** `AuditAction`. */
  datatype AuditAction = CREATE | UPDATE | DELETE | RECONCILE | REVIEW

  /** `AuditLogData`: what a caller asks to be logged. */
  datatype AuditLogData = AuditLogData(
    entityType: string,
    entityId: ObjectId,
    action: AuditAction,
    oldValue: Option<Json.Value>,
    newValue: Option<Json.Value>,
    changedBy: ObjectId,
    source: string,
    ipAddress: Option<string>,
    userAgent: Option<string>)

  /** A stored audit entry; `timestamp` is set when it is written and never changes. */
  datatype AuditLog = AuditLog(
    id: nat,
    entityType: string,
    entityId: ObjectId,
    action: AuditAction,
    oldValue: Option<Json.Value>,
    newValue: Option<Json.Value>,
    changedBy: ObjectId,
    source: string,
    ipAddress: Option<string>,
    userAgent: Option<string>,
    timestamp: int)

  /** The optional request metadata the `logX` helpers take. */
  datatype RequestMeta = RequestMeta(ipAddress: Option<string>, userAgent: Option<string>)

  /** `metadata?.ipAddress`. */
  function IpOf(meta: Option<RequestMeta>): Option<string> {
    if meta.Some? then meta.value.ipAddress else None
  }

  /** `metadata?.userAgent`. */
  function AgentOf(meta: Option<RequestMeta>): Option<string> {
    if meta.Some? then meta.value.userAgent else None
  }

  /** `logCreate`: the data it passes to `log`. */
  function CreateData(entityType: string, entityId: ObjectId, newValue: Json.Value, changedBy: ObjectId,
                      source: string, meta: Option<RequestMeta>): AuditLogData {
    AuditLogData(entityType, entityId, CREATE, None, Some(newValue), changedBy, source, IpOf(meta), AgentOf(meta))
  }

  /** `logUpdate`. */
  function UpdateData(entityType: string, entityId: ObjectId, oldValue: Json.Value, newValue: Json.Value,
                      changedBy: ObjectId, source: string, meta: Option<RequestMeta>): AuditLogData {
    AuditLogData(entityType, entityId, UPDATE, Some(oldValue), Some(newValue), changedBy, source, IpOf(meta),
                 AgentOf(meta))
  }

  /** `logReconcile`: the reconciliation data is the new value. */
  function ReconcileData(entityType: string, entityId: ObjectId, reconciliationData: Json.Value,
                         changedBy: ObjectId, source: string, meta: Option<RequestMeta>): AuditLogData {
    AuditLogData(entityType, entityId, RECONCILE, None, Some(reconciliationData), changedBy, source, IpOf(meta),
                 AgentOf(meta))
  }

  /** `logReview`. */
  function ReviewData(entityType: string, entityId: ObjectId, oldValue: Json.Value, newValue: Json.Value,
                      changedBy: ObjectId, source: string, meta: Option<RequestMeta>): AuditLogData {
    AuditLogData(entityType, entityId, REVIEW, Some(oldValue), Some(newValue), changedBy, source, IpOf(meta),
                 AgentOf(meta))
  }

  /** Each helper logs its own action; the create and reconcile helpers carry no old value, the update and
      review helpers carry both; all pass the entity, the user, the source and the metadata through. */
  lemma HelperActions(entityType: string, entityId: ObjectId, oldValue: Json.Value, newValue: Json.Value,
                      changedBy: ObjectId, source: string, meta: Option<RequestMeta>)
    ensures var c := CreateData(entityType, entityId, newValue, changedBy, source, meta);
            c.action == CREATE && c.oldValue.None? && c.newValue == Some(newValue)
    ensures var u := UpdateData(entityType, entityId, oldValue, newValue, changedBy, source, meta);
            u.action == UPDATE && u.oldValue == Some(oldValue) && u.newValue == Some(newValue)
    ensures var r := ReconcileData(entityType, entityId, newValue, changedBy, source, meta);
            r.action == RECONCILE && r.oldValue.None? && r.newValue == Some(newValue)
    ensures var v := ReviewData(entityType, entityId, oldValue, newValue, changedBy, source, meta);
            v.action == REVIEW && v.oldValue == Some(oldValue) && v.newValue == Some(newValue)
    ensures forall d :: d in [CreateData(entityType, entityId, newValue, changedBy, source, meta),
                              UpdateData(entityType, entityId, oldValue, newValue, changedBy, source, meta),
                              ReconcileData(entityType, entityId, newValue, changedBy, source, meta),
                              ReviewData(entityType, entityId, oldValue, newValue, changedBy, source, meta)] ==>
              && d.entityType == entityType && d.entityId == entityId && d.changedBy == changedBy
              && d.source == source && d.ipAddress == IpOf(meta) && d.userAgent == AgentOf(meta)
  {
  }

  /** The `required` validators that fail, in schema order; `entityType` and `source` are trimmed first. */
  function Missing(d: AuditLogData): (r: seq<string>)
    ensures r == [] <==> Trim(d.entityType) != "" && Trim(d.source) != ""
  {
    (if Trim(d.entityType) == "" then ["Entity type is required"] else [])
    + (if Trim(d.source) == "" then ["Source is required"] else [])
  }

  /** `trim: true` on an optional string. */
  function TrimOpt(s: Option<string>): Option<string> {
    if s.Some? then Some(Trim(s.value)) else None
  }

  /** `AuditLog.create(...)` with `timestamp: new Date()` for the log holding `count` entries. */
  function NewEntry(count: nat, d: AuditLogData, now: int): Result<AuditLog, seq<string>> {
    var missing := Missing(d);
    if missing != [] then Failure(missing)
    else Success(AuditLog(count, Trim(d.entityType), d.entityId, d.action, d.oldValue, d.newValue, d.changedBy,
                          Trim(d.source), TrimOpt(d.ipAddress), TrimOpt(d.userAgent), now))
  }

  /** An entry carries every field it was given (the strings trimmed) and the time it was written. */
  lemma EntryCarriesData(count: nat, d: AuditLogData, now: int)
    ensures var r := NewEntry(count, d, now);
            && (r.Success? <==> Trim(d.entityType) != "" && Trim(d.source) != "")
            && (r.Success? ==>
                  && r.value.id == count && r.value.timestamp == now
                  && r.value.entityType == Trim(d.entityType) && r.value.entityId == d.entityId
                  && r.value.action == d.action && r.value.oldValue == d.oldValue && r.value.newValue == d.newValue
                  && r.value.changedBy == d.changedBy && r.value.source == Trim(d.source)
                  && r.value.ipAddress == TrimOpt(d.ipAddress) && r.value.userAgent == TrimOpt(d.userAgent))
  {
  }

  /** The write operations the schema's `pre` hooks intercept. */
  datatype WriteOp = FindOneAndUpdate | UpdateOne | UpdateMany | FindOneAndDelete | DeleteOne | DeleteMany

  /** The error each hook passes to `next`. */
  function HookError(op: WriteOp): (e: string)
    ensures op in {FindOneAndUpdate, UpdateOne, UpdateMany} <==> e == "Audit logs cannot be updated"
    ensures op in {FindOneAndDelete, DeleteOne, DeleteMany} <==> e == "Audit logs cannot be deleted"
  {
    match op
    case FindOneAndUpdate | UpdateOne | UpdateMany => "Audit logs cannot be updated"
    case FindOneAndDelete | DeleteOne | DeleteMany => "Audit logs cannot be deleted"
  }

  /** The `getAuditLogs` filters; every one is optional. */
  datatype AuditFilter = AuditFilter(
    entityType: Option<string>,
    entityId: Option<ObjectId>,
    changedBy: Option<ObjectId>,
    action: Option<AuditAction>,
    startDate: Option<int>,
    endDate: Option<int>)

  /** The timestamp condition: `$gte` and/or `$lte`. */
  datatype Range = Range(gte: Option<int>, lte: Option<int>)

  /** The Mongo query `getAuditLogs` builds. */
  datatype LogQuery = LogQuery(
    entityType: Option<string>,
    entityId: Option<ObjectId>,
    changedBy: Option<ObjectId>,
    action: Option<AuditAction>,
    timestamp: Option<Range>)

  /** The query built from `f`: a field is set when its filter is given and truthy (an empty entity type is
      not), and the timestamp range when either date is given. */
  function QueryOf(f: AuditFilter): LogQuery {
    LogQuery(
      if f.entityType.Some? && f.entityType.value != "" then f.entityType else None,
      f.entityId,
      f.changedBy,
      f.action,
      if f.startDate.Some? || f.endDate.Some? then Some(Range(f.startDate, f.endDate)) else None)
  }

  /** A log satisfies a query when it equals every field the query sets and lies within the range. */
  predicate Satisfies(q: LogQuery, l: AuditLog) {
    && (q.entityType.Some? ==> l.entityType == q.entityType.value)
    && (q.entityId.Some? ==> l.entityId == q.entityId.value)
    && (q.changedBy.Some? ==> l.changedBy == q.changedBy.value)
    && (q.action.Some? ==> l.action == q.action.value)
    && (q.timestamp.Some? && q.timestamp.value.gte.Some? ==> l.timestamp >= q.timestamp.value.gte.value)
    && (q.timestamp.Some? && q.timestamp.value.lte.Some? ==> l.timestamp <= q.timestamp.value.lte.value)
  }

  /** Each supplied filter is an equality constraint, absent ones impose none, and the date range is inclusive
      at both ends. */
  lemma QueryMeaning(f: AuditFilter, l: AuditLog)
    ensures Satisfies(QueryOf(f), l) <==>
              && (f.entityType.Some? && f.entityType.value != "" ==> l.entityType == f.entityType.value)
              && (f.entityId.Some? ==> l.entityId == f.entityId.value)
              && (f.changedBy.Some? ==> l.changedBy == f.changedBy.value)
              && (f.action.Some? ==> l.action == f.action.value)
              && (f.startDate.Some? ==> f.startDate.value <= l.timestamp)
              && (f.endDate.Some? ==> l.timestamp <= f.endDate.value)
  {
  }

  /** The logs satisfying `q`, in log order. */
  function SelectLogs(logs: seq<AuditLog>, q: LogQuery): (r: seq<AuditLog>)
    ensures |r| <= |logs|
    ensures forall l :: l in r ==> l in logs && Satisfies(q, l)
  {
    if logs == [] then []
    else (if Satisfies(q, logs[0]) then [logs[0]] else []) + SelectLogs(logs[1..], q)
  }

  /** Every satisfying log is selected. */
  lemma {:induction false} SelectLogsComplete(logs: seq<AuditLog>, q: LogQuery, l: AuditLog)
    requires l in logs && Satisfies(q, l)
    ensures l in SelectLogs(logs, q)
  {
    if logs[0] != l {
      SelectLogsComplete(logs[1..], q, l);
    }
  }

  /** Sort key of `.sort({ timestamp: -1 })`. */
  function NewestFirst(l: AuditLog): int {
    -l.timestamp
  }

  /** Sort key of `.sort({ timestamp: 1 })`. */
  function OldestFirst(l: AuditLog): int {
    l.timestamp
  }

  /** The result of `getAuditLogs`. */
  datatype LogPage = LogPage(logs: seq<AuditLog>, total: nat, page: int, totalPages: nat)

  /** `getAuditLogs(filters, page, limit)` over the stored `logs`. */
  function ListLogs(logs: seq<AuditLog>, f: AuditFilter, page: int, limit: int): LogPage
    requires page >= 1 && limit >= 1
  {
    var selected := SelectLogs(logs, QueryOf(f));
    LogPage(Window(SortBy(selected, NewestFirst), Skip(page, limit), limit), |selected|, page,
            TotalPages(|selected|, limit))
  }

  /** A page holds at most `limit` entries, each a stored entry matching the filters; `total` counts every
      match. */
  lemma ListLogsPage(logs: seq<AuditLog>, f: AuditFilter, page: int, limit: int)
    requires page >= 1 && limit >= 1
    ensures var r := ListLogs(logs, f, page, limit);
            && |r.logs| <= limit && r.page == page
            && r.total == |SelectLogs(logs, QueryOf(f))|
            && (forall l :: l in r.logs ==> l in logs && Satisfies(QueryOf(f), l))
  {
    var sorted := SortBy(SelectLogs(logs, QueryOf(f)), NewestFirst);
    var r := ListLogs(logs, f, page, limit);
    forall l | l in r.logs ensures l in logs && Satisfies(QueryOf(f), l) {
      WindowWithin(sorted, Skip(page, limit), limit, l);
      assert l in multiset(sorted);
    }
  }

  /** A page lists its entries newest first. */
  lemma ListLogsNewestFirst(logs: seq<AuditLog>, f: AuditFilter, page: int, limit: int)
    requires page >= 1 && limit >= 1
    ensures var r := ListLogs(logs, f, page, limit);
            forall i, k :: 0 <= i < k < |r.logs| ==> r.logs[i].timestamp >= r.logs[k].timestamp
  {
    WindowSorted(SortBy(SelectLogs(logs, QueryOf(f)), NewestFirst), NewestFirst, Skip(page, limit), limit);
  }

  /** `totalPages` is the ceiling of `total / limit`, and a page is empty exactly when it lies past the last. */
  lemma ListLogsPaging(logs: seq<AuditLog>, f: AuditFilter, page: int, limit: int)
    requires page >= 1 && limit >= 1
    ensures var r := ListLogs(logs, f, page, limit);
            && (r.totalPages - 1) * limit < r.total <= r.totalPages * limit
            && (r.logs == [] <==> page > r.totalPages)
  {
    var selected := SelectLogs(logs, QueryOf(f));
    TotalPagesIsCeiling(|selected|, limit);
    WindowEmptyIffPastLast(SortBy(selected, NewestFirst), page, limit);
  }

  /** The filters of `getAuditLogsForEntity`. */
  function EntityFilter(entityType: string, entityId: ObjectId): AuditFilter {
    AuditFilter(Some(entityType), Some(entityId), None, None, None, None)
  }

  /** The logs of one entity (`find({ entityType, entityId })`), in log order. */
  function EntityLogs(logs: seq<AuditLog>, entityType: string, entityId: ObjectId): (r: seq<AuditLog>)
    ensures forall l :: l in r ==> l in logs && l.entityType == entityType && l.entityId == entityId
  {
    if logs == [] then []
    else (if logs[0].entityType == entityType && logs[0].entityId == entityId then [logs[0]] else [])
         + EntityLogs(logs[1..], entityType, entityId)
  }

  /** For a non-empty entity type the entity filter selects exactly that entity's logs. */
  lemma {:induction false} EntityFilterSelectsEntity(logs: seq<AuditLog>, entityType: string, entityId: ObjectId)
    requires entityType != ""
    ensures SelectLogs(logs, QueryOf(EntityFilter(entityType, entityId))) == EntityLogs(logs, entityType, entityId)
  {
    if logs != [] {
      EntityFilterSelectsEntity(logs[1..], entityType, entityId);
    }
  }

  /** An empty entity type is falsy and dropped from the query: the entity listing then matches on the id
      alone, whatever the entity type. */
  lemma {:induction false} EmptyEntityTypeIgnored(logs: seq<AuditLog>, entityId: ObjectId)
    ensures SelectLogs(logs, QueryOf(EntityFilter("", entityId)))
            == SelectLogs(logs, QueryOf(AuditFilter(None, Some(entityId), None, None, None, None)))
  {
    if logs != [] {
      EmptyEntityTypeIgnored(logs[1..], entityId);
    }
  }

  /** `getAuditHistory`: all of an entity's logs, oldest first. */
  function History(logs: seq<AuditLog>, entityType: string, entityId: ObjectId): seq<AuditLog> {
    SortBy(EntityLogs(logs, entityType, entityId), OldestFirst)
  }

  /** The history holds exactly the entity's logs, in ascending timestamp order, and for a non-empty entity
      type it has as many entries as the paged entity listing counts. */
  lemma HistoryIsEntityLogs(logs: seq<AuditLog>, entityType: string, entityId: ObjectId, page: int, limit: int)
    requires page >= 1 && limit >= 1
    ensures var h := History(logs, entityType, entityId);
            && multiset(h) == multiset(EntityLogs(logs, entityType, entityId))
            && (forall i, k :: 0 <= i < k < |h| ==> h[i].timestamp <= h[k].timestamp)
            && (entityType != "" ==> ListLogs(logs, EntityFilter(entityType, entityId), page, limit).total == |h|)
  {
    var h := History(logs, entityType, entityId);
    assert SortedBy(h, OldestFirst);
    if entityType != "" {
      EntityFilterSelectsEntity(logs, entityType, entityId);
    }
  }

  /** An entry about another entity leaves an entity's history as it was. */
  lemma {:induction false} OtherEntityLeavesHistory(logs: seq<AuditLog>, e: AuditLog, entityType: string,
                                                    entityId: ObjectId)
    requires e.entityType != entityType || e.entityId != entityId
    ensures EntityLogs(logs + [e], entityType, entityId) == EntityLogs(logs, entityType, entityId)
  {
    if logs == [] {
      assert [] + [e] == [e];
      assert [e][1..] == [];
    } else {
      assert (logs + [e])[1..] == logs[1..] + [e];
      OtherEntityLeavesHistory(logs[1..], e, entityType, entityId);
    }
  }

  /** The audit service over the audit collection. */
  class AuditService {
    var logs: seq<AuditLog>

    /** Each entry's id is its position, its required strings are present and trimmed. */
    ghost predicate Valid()
      reads this
    {
      forall i :: 0 <= i < |logs| ==>
        && logs[i].id == i
        && logs[i].entityType != "" && IsTrimmed(logs[i].entityType)
        && logs[i].source != "" && IsTrimmed(logs[i].source)
    }

    constructor()
      ensures Valid() && logs == []
    {
      logs := [];
    }

    /** `log(data)` at time `now`: appends the entry, or fails validation and writes nothing. */
    method Log(data: AuditLogData, now: int) returns (r: Result<AuditLog, seq<string>>)
      requires Valid()
      modifies this
      ensures Valid()
      ensures r == NewEntry(|old(logs)|, data, now)
      ensures r.Success? ==> logs == old(logs) + [r.value]
      ensures r.Failure? ==> logs == old(logs)
    {
      r := NewEntry(|logs|, data, now);
      if r.Success? {
        TrimIdempotent(data.entityType);
        TrimIdempotent(data.source);
        logs := logs + [r.value];
      }
    }

    method LogCreate(entityType: string, entityId: ObjectId, newValue: Json.Value, changedBy: ObjectId,
                     source: string, meta: Option<RequestMeta>, now: int) returns (r: Result<AuditLog, seq<string>>)
      requires Valid()
      modifies this
      ensures Valid()
      ensures r == NewEntry(|old(logs)|, CreateData(entityType, entityId, newValue, changedBy, source, meta), now)
      ensures logs == old(logs) + (if r.Success? then [r.value] else [])
    {
      r := Log(CreateData(entityType, entityId, newValue, changedBy, source, meta), now);
    }

    method LogUpdate(entityType: string, entityId: ObjectId, oldValue: Json.Value, newValue: Json.Value,
                     changedBy: ObjectId, source: string, meta: Option<RequestMeta>, now: int)
      returns (r: Result<AuditLog, seq<string>>)
      requires Valid()
      modifies this
      ensures Valid()
      ensures r == NewEntry(|old(logs)|, UpdateData(entityType, entityId, oldValue, newValue, changedBy, source, meta), now)
      ensures logs == old(logs) + (if r.Success? then [r.value] else [])
    {
      r := Log(UpdateData(entityType, entityId, oldValue, newValue, changedBy, source, meta), now);
    }

    method LogReconcile(entityType: string, entityId: ObjectId, reconciliationData: Json.Value, changedBy: ObjectId,
                        source: string, meta: Option<RequestMeta>, now: int) returns (r: Result<AuditLog, seq<string>>)
      requires Valid()
      modifies this
      ensures Valid()
      ensures r == NewEntry(|old(logs)|, ReconcileData(entityType, entityId, reconciliationData, changedBy, source, meta), now)
      ensures logs == old(logs) + (if r.Success? then [r.value] else [])
    {
      r := Log(ReconcileData(entityType, entityId, reconciliationData, changedBy, source, meta), now);
    }

    method LogReview(entityType: string, entityId: ObjectId, oldValue: Json.Value, newValue: Json.Value,
                     changedBy: ObjectId, source: string, meta: Option<RequestMeta>, now: int)
      returns (r: Result<AuditLog, seq<string>>)
      requires Valid()
      modifies this
      ensures Valid()
      ensures r == NewEntry(|old(logs)|, ReviewData(entityType, entityId, oldValue, newValue, changedBy, source, meta), now)
      ensures logs == old(logs) + (if r.Success? then [r.value] else [])
    {
      r := Log(ReviewData(entityType, entityId, oldValue, newValue, changedBy, source, meta), now);
    }

    /** One of the six query operations the schema hooks (`findOneAndUpdate`, `updateOne`, `updateMany`,
        `findOneAndDelete`, `deleteOne`, `deleteMany`): its hook rejects it and the log is untouched. */
    method Mutate(op: WriteOp) returns (error: string)
      ensures error == HookError(op)
      ensures logs == old(logs)
    {
      error := HookError(op);
    }

    /** Builds the query of `getAuditLogs` field by field. */
    method BuildQuery(f: AuditFilter) returns (q: LogQuery)
      ensures q == QueryOf(f)
    {
      q := LogQuery(None, None, None, None, None);
      if f.entityType.Some? && f.entityType.value != "" {
        q := q.(entityType := f.entityType);
      }
      if f.entityId.Some? {
        q := q.(entityId := f.entityId);
      }
      if f.changedBy.Some? {
        q := q.(changedBy := f.changedBy);
      }
      if f.action.Some? {
        q := q.(action := f.action);
      }
      if f.startDate.Some? || f.endDate.Some? {
        var range := Range(None, None);
        if f.startDate.Some? {
          range := range.(gte := f.startDate);
        }
        if f.endDate.Some? {
          range := range.(lte := f.endDate);
        }
        q := q.(timestamp := Some(range));
      }
    }

    /** `getAuditLogs(filters, page = 1, limit = 50)`: at most `limit` stored entries satisfying the query the
        filters build, newest first; `total` counts every match, `totalPages` is the ceiling of `total / limit`,
        and the page is empty exactly when it lies past the last one. */
    function GetAuditLogs(f: AuditFilter, page: int := 1, limit: int := 50): (r: LogPage)
      reads this
      requires page >= 1 && limit >= 1
      ensures |r.logs| <= limit && r.page == page
      ensures r.total == |SelectLogs(logs, QueryOf(f))|
      ensures forall l :: l in r.logs ==> l in logs && Satisfies(QueryOf(f), l)
      ensures forall i, k :: 0 <= i < k < |r.logs| ==> r.logs[i].timestamp >= r.logs[k].timestamp
      ensures (r.totalPages - 1) * limit < r.total <= r.totalPages * limit
      ensures r.logs == [] <==> page > r.totalPages
    {
      ListLogsPage(logs, f, page, limit);
      ListLogsNewestFirst(logs, f, page, limit);
      ListLogsPaging(logs, f, page, limit);
      ListLogs(logs, f, page, limit)
    }

    /** `getAuditLogsForEntity(entityType, entityId, page = 1, limit = 50)`: a page of the entity's entries,
        newest first. For a non-empty type `total` counts exactly the entity's entries; an empty type is falsy
        and dropped, so only the id is matched. */
    function GetAuditLogsForEntity(entityType: string, entityId: ObjectId, page: int := 1, limit: int := 50): (r: LogPage)
      reads this
      requires page >= 1 && limit >= 1
      ensures |r.logs| <= limit && r.page == page
      ensures forall l :: l in r.logs ==>
                l in logs && l.entityId == entityId && (entityType != "" ==> l.entityType == entityType)
      ensures entityType != "" ==> r.total == |EntityLogs(logs, entityType, entityId)|
      ensures forall i, k :: 0 <= i < k < |r.logs| ==> r.logs[i].timestamp >= r.logs[k].timestamp
      ensures r.logs == [] <==> page > r.totalPages
    {
      if entityType != "" then
        EntityFilterSelectsEntity(logs, entityType, entityId);
        GetAuditLogs(EntityFilter(entityType, entityId), page, limit)
      else
        GetAuditLogs(EntityFilter(entityType, entityId), page, limit)
    }

    /** `getAuditHistory(entityType, entityId)`: exactly the entity's entries, oldest first. */
    function GetAuditHistory(entityType: string, entityId: ObjectId): (r: seq<AuditLog>)
      reads this
      ensures multiset(r) == multiset(EntityLogs(logs, entityType, entityId))
      ensures forall l :: l in r ==> l in logs && l.entityType == entityType && l.entityId == entityId
      ensures forall i, k :: 0 <= i < k < |r| ==> r[i].timestamp <= r[k].timestamp
    {
      HistoryIsEntityLogs(logs, entityType, entityId, 1, 1);
      var h := History(logs, entityType, entityId);
      assert forall l :: l in h ==> l in multiset(EntityLogs(logs, entityType, entityId));
      h
    }
  }
}
