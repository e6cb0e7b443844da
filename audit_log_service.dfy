/** `AuditLogService`: an append-only log of audit records with three read filters. */
module Audit {
  import opened Wrappers
  import opened Domain
  import opened Seqs

  predicate ForEntity(r: AuditLog, entityType: string, entityId: int) {
    r.entityType == entityType && r.entityId == entityId
  }

  predicate ByUser(r: AuditLog, username: string) {
    r.performedBy == username
  }

  class AuditLogService {
    /** Every stored record, oldest first. */
    var records: seq<AuditLog>
    /** The repository currently rejects saves; `Log` swallows the failure. */
    var failing: bool

    constructor (failing: bool)
      ensures records == [] && this.failing == failing
    {
      records := [];
      this.failing := failing;
    }

    /** What a sequence of `Log` calls leaves in the store: everything, or
        nothing while saves fail. */
    function Kept(rs: seq<AuditLog>): seq<AuditLog>
      reads this`failing
    {
      if failing then [] else rs
    }

    /** Appends one record carrying exactly the given values; a failing save is
        caught, so the call always returns normally. No record is changed or removed. */
    method Log(entityType: string, entityId: int, action: AuditAction, performedBy: string,
               oldValue: Option<string>, newValue: Option<string>, details: string)
      modifies this`records
      ensures records == old(records) + Kept([AuditLog(entityType, entityId, action, performedBy, oldValue, newValue, details)])
      ensures old(records) <= records
    {
      if !failing {
        records := records + [AuditLog(entityType, entityId, action, performedBy, oldValue, newValue, details)];
      }
    }

    /** The records about one entity, in log order. */
    function GetAuditLogsForEntity(entityType: string, entityId: int): (r: seq<AuditLog>)
      reads this
      ensures forall a :: a in r <==> a in records && ForEntity(a, entityType, entityId)
      ensures forall a :: multiset(r)[a] == if ForEntity(a, entityType, entityId) then multiset(records)[a] else 0
    {
      Select(records, (a: AuditLog) => ForEntity(a, entityType, entityId))
    }

    /** The records one actor performed, in log order. */
    function GetAuditLogsByUser(username: string): (r: seq<AuditLog>)
      reads this
      ensures forall a :: a in r <==> a in records && ByUser(a, username)
      ensures forall a :: multiset(r)[a] == if ByUser(a, username) then multiset(records)[a] else 0
    {
      Select(records, (a: AuditLog) => ByUser(a, username))
    }

    function GetAllAuditLogs(): (r: seq<AuditLog>)
      reads this
      ensures r == records
    {
      records
    }
  }

  /** The full log and the two filtered views agree: a record is in the log
      exactly when the view for its own entity, and the view for its own
      actor, list it, and neither view lists it more often than the log. */
  lemma ViewsCoverLog(service: AuditLogService, a: AuditLog)
    ensures a in service.GetAllAuditLogs() <==> a in service.GetAuditLogsForEntity(a.entityType, a.entityId)
    ensures a in service.GetAllAuditLogs() <==> a in service.GetAuditLogsByUser(a.performedBy)
    ensures multiset(service.GetAuditLogsForEntity(a.entityType, a.entityId))[a] == multiset(service.GetAllAuditLogs())[a]
    ensures multiset(service.GetAuditLogsByUser(a.performedBy))[a] == multiset(service.GetAllAuditLogs())[a]
  {
  }

  /** Records kept across consecutive calls are the records kept for all of them. */
  lemma KeptAppend(service: AuditLogService, a: seq<AuditLog>, b: seq<AuditLog>)
    ensures service.Kept(a) + service.Kept(b) == service.Kept(a + b)
  {
  }
}
