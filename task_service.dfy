/** `TaskService`: the task store with its create, partial-update, delete and
    reminder-flag operations, each appending audit records and publishing task
    events in a fixed order. */
module Tasks {
  import opened Wrappers
  import opened Text
  import opened Domain
  import opened Seqs
  import opened Events
  import opened Audit
  import opened Users
  import opened Repository
  import opened Specification

  // ---------------------------------------------------------------------------
  // The table as a sequence of rows
  // ---------------------------------------------------------------------------

  /** Row ids in table order, each stored once, each row under its own id. */
  ghost predicate WellFormed(ids: seq<TaskId>, store: map<TaskId, Task>) {
    && Distinct(ids)
    && (forall k :: 0 <= k < |ids| ==> ids[k] in store)
    && (forall id :: id in store ==> id in ids)
    && (forall id :: id in store ==> store[id].id == id)
  }

  /** The rows in table order. */
  function RowsOf(ids: seq<TaskId>, store: map<TaskId, Task>): (r: seq<Task>)
    requires forall k :: 0 <= k < |ids| ==> ids[k] in store
    ensures |r| == |ids|
    ensures forall k :: 0 <= k < |ids| ==> r[k] == store[ids[k]]
  {
    seq(|ids|, k requires 0 <= k < |ids| => store[ids[k]])
  }

  /** A task is a row exactly when it is the one stored under its id. */
  lemma RowsMembership(ids: seq<TaskId>, store: map<TaskId, Task>, t: Task)
    requires WellFormed(ids, store)
    ensures t in RowsOf(ids, store) <==> t.id in store && store[t.id] == t
  {
    var rows := RowsOf(ids, store);
    if t.id in store && store[t.id] == t {
      var k :| 0 <= k < |ids| && ids[k] == t.id;
      assert rows[k] == t;
    }
    if t in rows {
      var k :| 0 <= k < |rows| && rows[k] == t;
      assert store[ids[k]].id == ids[k];
    }
  }

  /** Rewriting a row under its own id keeps the table well formed. */
  lemma WellFormedAppend(ids: seq<TaskId>, store: map<TaskId, Task>, t: Task)
    requires WellFormed(ids, store) && t.id !in store
    ensures WellFormed(ids + [t.id], store[t.id := t])
  {
  }

  lemma WellFormedReplace(ids: seq<TaskId>, store: map<TaskId, Task>, t: Task)
    requires WellFormed(ids, store) && t.id in store
    ensures WellFormed(ids, store[t.id := t])
  {
  }

  // ---------------------------------------------------------------------------
  // createTask
  // ---------------------------------------------------------------------------

  /** `getUserEntityById` on an optional id: nothing to resolve, the user, or not-found. */
  function ResolveUser(users: map<UserId, User>, id: Option<UserId>): (r: Result<Option<User>, Error>)
    ensures id.None? ==> r == Ok(None)
    ensures id.Some? && id.value in users ==> r == Ok(Some(users[id.value]))
    ensures id.Some? && id.value !in users ==> r == Err(ResourceNotFound("User", "id"))
  {
    match id
    case None => Ok(None)
    case Some(i) => if i in users then Ok(Some(users[i])) else Err(ResourceNotFound("User", "id"))
  }

  /** createTask resolves a given reference exactly as the user service's
      `getUserEntityById` does: the same user on success, the same
      not-found error otherwise, and a user whose id is the one given. */
  lemma ResolveUserIsUserLookup(svc: UserService, id: UserId)
    ensures var lookup := svc.GetUserEntityById(id);
      && ResolveUser(svc.users, Some(id)).Ok? == lookup.Ok?
      && (lookup.Ok? ==> ResolveUser(svc.users, Some(id)) == Ok(Some(lookup.value)))
      && (lookup.Err? ==> ResolveUser(svc.users, Some(id)) == Err(lookup.error))
    ensures svc.Valid() && ResolveUser(svc.users, Some(id)).Ok? ==> ResolveUser(svc.users, Some(id)).value.value.id == id
  {
  }

  /** The task createTask builds: status TODO and priority MEDIUM when not
      given, reminder not sent; actual hours and completion time are never
      taken from the DTO, whatever its status. */
  function NewTask(id: TaskId, dto: TaskDto, title: string, assignee: Option<User>, creator: Option<User>): Task
  {
    Task(id, title, dto.description, dto.status.GetOr(Todo), dto.priority.GetOr(Medium),
         dto.dueDate, assignee, creator, false, dto.estimatedHours, None, dto.tags, None)
  }

  /** A given status or priority is kept, a missing one defaults. */
  lemma NewTaskDefaults(id: TaskId, dto: TaskDto, title: string, assignee: Option<User>, creator: Option<User>)
    ensures var t := NewTask(id, dto, title, assignee, creator);
      && t.id == id && t.title == title
      && t.status == dto.status.GetOr(Todo)
      && t.priority == dto.priority.GetOr(Medium)
      && !t.reminderSent && t.actualHours.None? && t.completedAt.None?
      && t.description == dto.description && t.dueDate == dto.dueDate
      && t.estimatedHours == dto.estimatedHours && t.tags == dto.tags
      && t.assignee == assignee && t.createdBy == creator
  {
  }

  /** createTask as one decision: the assignee is resolved first, then the
      creator, then the row is saved, where a null title violates the NOT NULL
      column. */
  function Creation(id: TaskId, dto: TaskDto, users: map<UserId, User>): Result<Task, Error> {
    var assignee := ResolveUser(users, dto.assigneeId);
    if assignee.Err? then Err(assignee.error)
    else
      var creator := ResolveUser(users, dto.createdById);
      if creator.Err? then Err(creator.error)
      else if dto.title.None? then Err(ConstraintViolation("title"))
      else Ok(NewTask(id, dto, dto.title.value, assignee.value, creator.value))
  }

  function CreateRecord(t: Task): AuditLog {
    AuditLog("TASK", t.id, Create, "SYSTEM", None, Some(t.title), "Task created")
  }

  /** The events createTask publishes for the saved task. */
  function CreateEvents(t: Task): seq<TaskEvent> {
    if t.assignee.Some? then [TaskEvent(t, Assigned)] else []
  }

  /** An unresolvable assignee or creator id fails with not-found, the
      assignee being checked first; otherwise a null title fails the save;
      otherwise the task is built with its defaults. */
  lemma CreateOutcome(id: TaskId, dto: TaskDto, users: map<UserId, User>)
    ensures dto.assigneeId.Some? && dto.assigneeId.value !in users ==>
              Creation(id, dto, users) == Err(ResourceNotFound("User", "id"))
    ensures dto.createdById.Some? && dto.createdById.value !in users ==>
              Creation(id, dto, users) == Err(ResourceNotFound("User", "id"))
    ensures Creation(id, dto, users).Ok? <==>
              && (dto.assigneeId.Some? ==> dto.assigneeId.value in users)
              && (dto.createdById.Some? ==> dto.createdById.value in users)
              && dto.title.Some?
    ensures Creation(id, dto, users).Ok? ==>
              var t := Creation(id, dto, users).value;
              && t.status == dto.status.GetOr(Todo) && t.priority == dto.priority.GetOr(Medium)
              && !t.reminderSent && t.id == id && Some(t.title) == dto.title
              && (t.assignee.Some? <==> dto.assigneeId.Some?)
              && (t.assignee.Some? ==> t.assignee.value == users[dto.assigneeId.value])
              && (t.createdBy.Some? <==> dto.createdById.Some?)
  {
    var assignee := ResolveUser(users, dto.assigneeId);
    var creator := ResolveUser(users, dto.createdById);
    if assignee.Ok? && creator.Ok? && dto.title.Some? {
      NewTaskDefaults(id, dto, dto.title.value, assignee.value, creator.value);
    }
  }

  /** One ASSIGNED event exactly when the saved task has an assignee, and no other event. */
  lemma CreateEventsExact(t: Task)
    ensures |CreateEvents(t)| == (if t.assignee.Some? then 1 else 0)
    ensures forall e :: e in CreateEvents(t) ==> e == TaskEvent(t, Assigned)
  {
  }

  // ---------------------------------------------------------------------------
  // updateTask
  // ---------------------------------------------------------------------------

  /** A setter guarded by a null check: the new value when one is given. */
  function Given<T>(update: Option<T>, current: Option<T>): Option<T> {
    if update.Some? then update else current
  }

  /** The plain field updates: each non-null DTO field among title,
      description, priority, due date, estimated and actual hours and tags
      replaces the stored one; nothing else is touched. */
  function ApplyFields(t: Task, dto: TaskDto): Task
  {
    t.(title := dto.title.GetOr(t.title),
       description := Given(dto.description, t.description),
       priority := dto.priority.GetOr(t.priority),
       dueDate := Given(dto.dueDate, t.dueDate),
       estimatedHours := Given(dto.estimatedHours, t.estimatedHours),
       actualHours := Given(dto.actualHours, t.actualHours),
       tags := Given(dto.tags, t.tags))
  }

  /** Field by field: each given field replaced, every other one kept. */
  lemma ApplyFieldsSpec(t: Task, dto: TaskDto)
    ensures var r := ApplyFields(t, dto);
      && r.title == dto.title.GetOr(t.title)
      && r.description == (if dto.description.Some? then dto.description else t.description)
      && r.priority == dto.priority.GetOr(t.priority)
      && r.dueDate == (if dto.dueDate.Some? then dto.dueDate else t.dueDate)
      && r.estimatedHours == (if dto.estimatedHours.Some? then dto.estimatedHours else t.estimatedHours)
      && r.actualHours == (if dto.actualHours.Some? then dto.actualHours else t.actualHours)
      && r.tags == (if dto.tags.Some? then dto.tags else t.tags)
      && r.id == t.id && r.status == t.status && r.assignee == t.assignee && r.createdBy == t.createdBy
      && r.reminderSent == t.reminderSent && r.completedAt == t.completedAt
  {
  }

  /** A status counts as changed only when one is given and it differs from the old one. */
  predicate StatusChanges(oldStatus: TaskStatus, dto: TaskDto) {
    dto.status.Some? && dto.status.value != oldStatus
  }

  /** An assignee counts as changed only when an id is given and it differs
      from the current one (which may be null). */
  predicate AssigneeChanges(oldAssigneeId: Option<UserId>, dto: TaskDto) {
    dto.assigneeId.Some? && Some(dto.assigneeId.value) != oldAssigneeId
  }

  /** The status step: a change sets the status, and a change into COMPLETED
      stamps the completion time. */
  function ApplyStatus(t: Task, oldStatus: TaskStatus, dto: TaskDto, now: DateTime): Task {
    if !StatusChanges(oldStatus, dto) then t
    else if dto.status.value == Completed then t.(status := Completed, completedAt := Some(now))
    else t.(status := dto.status.value)
  }

  function StatusChangeRecord(id: TaskId, oldStatus: TaskStatus, newStatus: TaskStatus): AuditLog {
    AuditLog("TASK", id, StatusChange, "SYSTEM", Some(StatusName(oldStatus)), Some(StatusName(newStatus)),
             "Task status changed")
  }

  /** The old assignee id as `toString` renders it, or the text "null". */
  function IdOrNull(id: Option<UserId>): string {
    if id.Some? then IntToString(id.value) else "null"
  }

  function AssignRecord(id: TaskId, oldAssigneeId: Option<UserId>, newAssigneeId: UserId): AuditLog {
    AuditLog("TASK", id, Assign, "SYSTEM", Some(IdOrNull(oldAssigneeId)), Some(IntToString(newAssigneeId)),
             "Task assigned")
  }

  function UpdateRecord(id: TaskId): AuditLog {
    AuditLog("TASK", id, Update, "SYSTEM", None, None, "Task updated")
  }

  /** The STATUS_CHANGE record of the status step, when the status changes. */
  function StatusRecords(id: TaskId, oldStatus: TaskStatus, dto: TaskDto): seq<AuditLog> {
    if StatusChanges(oldStatus, dto) then [StatusChangeRecord(id, oldStatus, dto.status.value)] else []
  }

  /** The STATUS_CHANGED event of the status step, carrying the task as it then is. */
  function StatusEvents(t1: Task, oldStatus: TaskStatus, dto: TaskDto): seq<TaskEvent> {
    if StatusChanges(oldStatus, dto) then [TaskEvent(t1, StatusChanged)] else []
  }

  /** What one updateTask call, or one step of it, yields: the task or the
      error, and the audit records and events appended on the way. */
  datatype UpdateOutcome = UpdateOutcome(result: Result<Task, Error>, records: seq<AuditLog>, events: seq<TaskEvent>)

  /** The assignee step on the task `t1`: nothing when the assignee does not
      change; otherwise the lookup, then the ASSIGN record and the ASSIGNED
      event, or not-found with nothing appended. */
  function AssignStep(t1: Task, oldAssigneeId: Option<UserId>, dto: TaskDto, users: map<UserId, User>): UpdateOutcome {
    if !AssigneeChanges(oldAssigneeId, dto) then UpdateOutcome(Ok(t1), [], [])
    else if dto.assigneeId.value !in users then UpdateOutcome(Err(ResourceNotFound("User", "id")), [], [])
    else
      var t2 := t1.(assignee := Some(users[dto.assigneeId.value]));
      UpdateOutcome(Ok(t2), [AssignRecord(t1.id, oldAssigneeId, dto.assigneeId.value)], [TaskEvent(t2, Assigned)])
  }

  /** updateTask on the stored task `t0`, step by step as the method runs:
      fields, then status (record and event), then assignee (lookup, record
      and event), then the save and the UPDATE record. A failing assignee
      lookup ends the call after the status step's record and event. */
  function UpdateExisting(t0: Task, dto: TaskDto, now: DateTime, users: map<UserId, User>): UpdateOutcome {
    var t1 := ApplyStatus(ApplyFields(t0, dto), t0.status, dto, now);
    var step := AssignStep(t1, t0.AssigneeId(), dto, users);
    UpdateOutcome(step.result,
                  StatusRecords(t0.id, t0.status, dto) + step.records
                    + (if step.result.Ok? then [UpdateRecord(t0.id)] else []),
                  StatusEvents(t1, t0.status, dto) + step.events)
  }

  /** The audit records of the steps before the save. */
  function StepRecords(t0: Task, dto: TaskDto, now: DateTime, users: map<UserId, User>): seq<AuditLog> {
    var t1 := ApplyStatus(ApplyFields(t0, dto), t0.status, dto, now);
    StatusRecords(t0.id, t0.status, dto) + AssignStep(t1, t0.AssigneeId(), dto, users).records
  }

  /** updateTask as its steps: the outcome of the assignee step on the task
      after fields and status, with the UPDATE record after a success. */
  lemma UpdateExistingSteps(t0: Task, dto: TaskDto, now: DateTime, users: map<UserId, User>)
    ensures var t1 := ApplyStatus(ApplyFields(t0, dto), t0.status, dto, now);
      var o := AssignStep(t1, t0.AssigneeId(), dto, users);
      var u := UpdateExisting(t0, dto, now, users);
      && u.result == o.result
      && (o.result.Ok? ==> o.result.value.id == t0.id)
      && u.records == StepRecords(t0, dto, now, users) + (if o.result.Ok? then [UpdateRecord(t0.id)] else [])
      && u.events == StatusEvents(t1, t0.status, dto) + o.events
  {
  }

  /** The fields a successful update writes: only the non-null ones; id,
      creator and reminder flag are never touched. */
  lemma UpdateChangesOnlyGivenFields(t0: Task, dto: TaskDto, now: DateTime, users: map<UserId, User>)
    requires UpdateExisting(t0, dto, now, users).result.Ok?
    ensures var t := UpdateExisting(t0, dto, now, users).result.value;
      && t.id == t0.id && t.createdBy == t0.createdBy && t.reminderSent == t0.reminderSent
      && t.title == dto.title.GetOr(t0.title)
      && t.description == (if dto.description.Some? then dto.description else t0.description)
      && t.priority == dto.priority.GetOr(t0.priority)
      && t.dueDate == (if dto.dueDate.Some? then dto.dueDate else t0.dueDate)
      && t.estimatedHours == (if dto.estimatedHours.Some? then dto.estimatedHours else t0.estimatedHours)
      && t.actualHours == (if dto.actualHours.Some? then dto.actualHours else t0.actualHours)
      && t.tags == (if dto.tags.Some? then dto.tags else t0.tags)
  {
    var t1 := ApplyFields(t0, dto);
    ApplyFieldsSpec(t0, dto);
    UpdatedTask(t0, dto, now, users);
    UpdateKeepsFieldsOf(t0, dto, now, users);
  }

  /** The plain fields of a task, which the status and assignee steps leave alone. */
  predicate SameFields(a: Task, b: Task) {
    && a.id == b.id && a.title == b.title && a.description == b.description && a.priority == b.priority
    && a.dueDate == b.dueDate && a.createdBy == b.createdBy && a.reminderSent == b.reminderSent
    && a.estimatedHours == b.estimatedHours && a.actualHours == b.actualHours && a.tags == b.tags
  }

  lemma UpdateKeepsFieldsOf(t0: Task, dto: TaskDto, now: DateTime, users: map<UserId, User>)
    requires UpdateExisting(t0, dto, now, users).result.Ok?
    ensures SameFields(UpdateExisting(t0, dto, now, users).result.value, ApplyFields(t0, dto))
  {
    UpdatedTask(t0, dto, now, users);
  }

  /** The task a successful update saves: fields, then status, then assignee. */
  lemma UpdatedTask(t0: Task, dto: TaskDto, now: DateTime, users: map<UserId, User>)
    requires UpdateExisting(t0, dto, now, users).result.Ok?
    ensures var t2 := ApplyStatus(ApplyFields(t0, dto), t0.status, dto, now);
      UpdateExisting(t0, dto, now, users).result.value ==
        if AssigneeChanges(t0.AssigneeId(), dto) then t2.(assignee := Some(users[dto.assigneeId.value])) else t2
  {
  }

  /** The status moves only on a real change; completion is stamped only on a
      change into COMPLETED and a stamp is never cleared. */
  lemma UpdateStatusRule(t0: Task, dto: TaskDto, now: DateTime, users: map<UserId, User>)
    requires UpdateExisting(t0, dto, now, users).result.Ok?
    ensures var t := UpdateExisting(t0, dto, now, users).result.value;
      && (StatusChanges(t0.status, dto) ==> t.status == dto.status.value)
      && (!StatusChanges(t0.status, dto) ==> t.status == t0.status)
      && (StatusChanges(t0.status, dto) && dto.status.value == Completed ==> t.completedAt == Some(now))
      && (!(StatusChanges(t0.status, dto) && dto.status.value == Completed) ==> t.completedAt == t0.completedAt)
      && (t0.completedAt.Some? ==> t.completedAt.Some?)
  {
  }

  /** The assignee moves only on a real change, to the user looked up, and an
      update never unassigns a task. */
  lemma UpdateAssigneeRule(t0: Task, dto: TaskDto, now: DateTime, users: map<UserId, User>)
    requires UpdateExisting(t0, dto, now, users).result.Ok?
    ensures var t := UpdateExisting(t0, dto, now, users).result.value;
      && (AssigneeChanges(t0.AssigneeId(), dto) ==> t.assignee == Some(users[dto.assigneeId.value]))
      && (!AssigneeChanges(t0.AssigneeId(), dto) ==> t.assignee == t0.assignee)
      && (t0.assignee.Some? ==> t.assignee.Some?)
  {
  }

  /** A successful update appends, in this order: a STATUS_CHANGE record when
      the status changed, an ASSIGN record when the assignee changed, and
      exactly one UPDATE record, last. Its events are a STATUS_CHANGED event
      when the status changed followed by an ASSIGNED event when the assignee
      changed, and nothing else. */
  lemma UpdateRecordsAndEvents(t0: Task, dto: TaskDto, now: DateTime, users: map<UserId, User>)
    requires UpdateExisting(t0, dto, now, users).result.Ok?
    ensures var o := UpdateExisting(t0, dto, now, users);
      var sc := StatusChanges(t0.status, dto);
      var ac := AssigneeChanges(t0.AssigneeId(), dto);
      && |o.records| == (if sc then 1 else 0) + (if ac then 1 else 0) + 1
      && o.records[|o.records| - 1] == UpdateRecord(t0.id)
      && (forall k :: 0 <= k < |o.records| - 1 ==> o.records[k].action != Update)
      && (sc ==> o.records[0] == StatusChangeRecord(t0.id, t0.status, dto.status.value))
      && (ac ==> o.records[|o.records| - 2] == AssignRecord(t0.id, t0.AssigneeId(), dto.assigneeId.value))
    ensures var o := UpdateExisting(t0, dto, now, users);
      var sc := StatusChanges(t0.status, dto);
      var ac := AssigneeChanges(t0.AssigneeId(), dto);
      && |o.events| == (if sc then 1 else 0) + (if ac then 1 else 0)
      && (sc ==> o.events[0].eventType == StatusChanged)
      && (ac ==> o.events[|o.events| - 1] == TaskEvent(o.result.value, Assigned))
  {
    UpdateRecordsShape(t0, dto, now, users);
    UpdateEventsShape(t0, dto, now, users);
  }

  lemma UpdateRecordsShape(t0: Task, dto: TaskDto, now: DateTime, users: map<UserId, User>)
    requires UpdateExisting(t0, dto, now, users).result.Ok?
    ensures var o := UpdateExisting(t0, dto, now, users);
      var sc := StatusChanges(t0.status, dto);
      var ac := AssigneeChanges(t0.AssigneeId(), dto);
      && |o.records| == (if sc then 1 else 0) + (if ac then 1 else 0) + 1
      && o.records[|o.records| - 1] == UpdateRecord(t0.id)
      && (forall k :: 0 <= k < |o.records| - 1 ==> o.records[k].action != Update)
      && (sc ==> o.records[0] == StatusChangeRecord(t0.id, t0.status, dto.status.value))
      && (ac ==> o.records[|o.records| - 2] == AssignRecord(t0.id, t0.AssigneeId(), dto.assigneeId.value))
  {
  }

  lemma UpdateEventsShape(t0: Task, dto: TaskDto, now: DateTime, users: map<UserId, User>)
    requires UpdateExisting(t0, dto, now, users).result.Ok?
    ensures var o := UpdateExisting(t0, dto, now, users);
      var sc := StatusChanges(t0.status, dto);
      var ac := AssigneeChanges(t0.AssigneeId(), dto);
      && |o.events| == (if sc then 1 else 0) + (if ac then 1 else 0)
      && (sc ==> o.events[0].eventType == StatusChanged)
      && (ac ==> o.events[|o.events| - 1] == TaskEvent(o.result.value, Assigned))
  {
  }

  /** A failing assignee lookup fails the call with not-found, yet the
      STATUS_CHANGE record and STATUS_CHANGED event of the same call are
      already out; no ASSIGN or UPDATE record follows. */
  lemma FailedUpdateStillNotifies(t0: Task, dto: TaskDto, now: DateTime, users: map<UserId, User>)
    ensures var o := UpdateExisting(t0, dto, now, users);
      o.result.Err? <==> AssigneeChanges(t0.AssigneeId(), dto) && dto.assigneeId.value !in users
    ensures var o := UpdateExisting(t0, dto, now, users);
      o.result.Err? ==>
        && o.result.error == ResourceNotFound("User", "id")
        && |o.records| == |o.events| == (if StatusChanges(t0.status, dto) then 1 else 0)
        && (forall r :: r in o.records ==> r.action == StatusChange)
        && (forall e :: e in o.events ==> e.eventType == StatusChanged)
  {
  }

  /** An all-null DTO saves the task unchanged with one UPDATE record and no event. */
  lemma EmptyUpdateIsNoOp(t0: Task, now: DateTime, users: map<UserId, User>)
    ensures UpdateExisting(t0, EmptyTaskDto, now, users) == UpdateOutcome(Ok(t0), [UpdateRecord(t0.id)], [])
  {
  }

  /** Moving a task from TODO to IN_PROGRESS: the task changes status only,
      one STATUS_CHANGE record from "TODO" to "IN_PROGRESS" precedes the
      UPDATE record, one STATUS_CHANGED event goes out, and no completion
      time appears. */
  lemma StartWorkScenario(t0: Task, now: DateTime, users: map<UserId, User>)
    requires t0.status == Todo && t0.completedAt.None?
    ensures var o := UpdateExisting(t0, EmptyTaskDto.(status := Some(InProgress)), now, users);
      && o.result == Ok(t0.(status := InProgress))
      && o.records == [StatusChangeRecord(t0.id, Todo, InProgress), UpdateRecord(t0.id)]
      && o.records[0].oldValue == Some("TODO") && o.records[0].newValue == Some("IN_PROGRESS")
      && o.events == [TaskEvent(t0.(status := InProgress), StatusChanged)]
      && o.result.value.completedAt.None?
  {
  }

  // ---------------------------------------------------------------------------
  // markReminderSent
  // ---------------------------------------------------------------------------

  /** The store after markReminderSent on a stored id. */
  function MarkSent(store: map<TaskId, Task>, id: TaskId): (r: map<TaskId, Task>)
    requires id in store
    ensures r.Keys == store.Keys && r[id].reminderSent
    ensures forall k :: k in store && k != id ==> r[k] == store[k]
  {
    store[id := store[id].(reminderSent := true)]
  }

  /** Only the reminder flag moves, and a second call changes nothing. */
  lemma MarkSentIdempotent(store: map<TaskId, Task>, id: TaskId)
    requires id in store
    ensures MarkSent(store, id)[id] == store[id].(reminderSent := true)
    ensures MarkSent(MarkSent(store, id), id) == MarkSent(store, id)
  {
  }

  // ---------------------------------------------------------------------------
  // The service
  // ---------------------------------------------------------------------------

  class TaskService {
    const users: UserService
    const audit: AuditLogService
    const events: EventPublisher
    /** The task table by id. */
    var store: map<TaskId, Task>
    /** Row ids in insertion order, which is the order queries return rows in. */
    var ids: seq<TaskId>
    /** The id the next saved task receives. */
    var nextId: TaskId

    ghost predicate Valid()
      reads this
    {
      && WellFormed(ids, store)
      && nextId > 0
      && (forall id :: id in store ==> 0 < id < nextId)
    }

    constructor (users: UserService, audit: AuditLogService, events: EventPublisher)
      ensures Valid() && store == map[] && ids == []
      ensures this.users == users && this.audit == audit && this.events == events
    {
      this.users := users;
      this.audit := audit;
      this.events := events;
      store := map[];
      ids := [];
      nextId := 1;
    }

    function Rows(): (r: seq<Task>)
      requires Valid()
      reads this
      ensures forall t :: t in r <==> t.id in store && store[t.id] == t
    {
      forall t ensures t in RowsOf(ids, store) <==> t.id in store && store[t.id] == t {
        RowsMembership(ids, store, t);
      }
      RowsOf(ids, store)
    }

    /** Saves a new task under the next id and logs CREATE, then publishes
        ASSIGNED when it has an assignee; on any error nothing is saved,
        logged or published. */
    method CreateTask(dto: TaskDto) returns (r: Result<Task, Error>)
      requires Valid()
      modifies this, audit`records, events
      ensures Valid()
      ensures r == Creation(old(nextId), dto, users.users)
      ensures r.Err? ==>
                && store == old(store) && ids == old(ids) && nextId == old(nextId)
                && audit.records == old(audit.records) && events.published == old(events.published)
      ensures r.Ok? ==>
                && store == old(store)[r.value.id := r.value] && ids == old(ids) + [r.value.id]
                && r.value.id !in old(store) && nextId == old(nextId) + 1
                && audit.records == old(audit.records) + audit.Kept([CreateRecord(r.value)])
                && events.published == old(events.published) + CreateEvents(r.value)
    {
      var assignee: Option<User> := None;
      if dto.assigneeId.Some? {
        var found := users.GetUserEntityById(dto.assigneeId.value);
        if found.Err? {
          return Err(found.error);
        }
        assignee := Some(found.value);
      }
      var creator: Option<User> := None;
      if dto.createdById.Some? {
        var found := users.GetUserEntityById(dto.createdById.value);
        if found.Err? {
          return Err(found.error);
        }
        creator := Some(found.value);
      }
      if dto.title.None? {
        return Err(ConstraintViolation("title"));
      }
      var task := NewTask(nextId, dto, dto.title.value, assignee, creator);
      WellFormedAppend(ids, store, task);
      store := store[task.id := task];
      ids := ids + [task.id];
      nextId := nextId + 1;
      audit.Log("TASK", task.id, Create, "SYSTEM", None, Some(task.title), "Task created");
      if task.assignee.Some? {
        events.PublishEvent(TaskEvent(task, Assigned));
      }
      r := Ok(task);
    }

    /** The status step of updateTask: on a real change, sets the status
        (stamping completion on COMPLETED), logs STATUS_CHANGE and publishes
        STATUS_CHANGED with the task as it now is. */
    method ChangeStatus(task: Task, oldStatus: TaskStatus, dto: TaskDto, now: DateTime) returns (t: Task)
      modifies audit`records, events
      ensures t == ApplyStatus(task, oldStatus, dto, now)
      ensures audit.records == old(audit.records) + audit.Kept(StatusRecords(task.id, oldStatus, dto))
      ensures events.published == old(events.published) + StatusEvents(t, oldStatus, dto)
    {
      t := task;
      if dto.status.Some? && dto.status.value != oldStatus {
        t := t.(status := dto.status.value);
        if dto.status.value == Completed {
          t := t.(completedAt := Some(now));
        }
        audit.Log("TASK", t.id, StatusChange, "SYSTEM", Some(StatusName(oldStatus)),
                  Some(StatusName(dto.status.value)), "Task status changed");
        events.PublishEvent(TaskEvent(t, StatusChanged));
      }
    }

    /** The assignee step of updateTask: on a real change, looks the user up
        (not-found ends the call), sets the assignee, logs ASSIGN and
        publishes ASSIGNED. */
    method ChangeAssignee(task: Task, oldAssigneeId: Option<UserId>, dto: TaskDto) returns (r: Result<Task, Error>)
      modifies audit`records, events
      ensures var o := AssignStep(task, oldAssigneeId, dto, users.users);
        && r == o.result
        && audit.records == old(audit.records) + audit.Kept(o.records)
        && events.published == old(events.published) + o.events
    {
      if dto.assigneeId.Some? && Some(dto.assigneeId.value) != oldAssigneeId {
        var found := users.GetUserEntityById(dto.assigneeId.value);
        if found.Err? {
          return Err(found.error);
        }
        var t := task.(assignee := Some(found.value));
        audit.Log("TASK", t.id, Assign, "SYSTEM", Some(IdOrNull(oldAssigneeId)),
                  Some(IntToString(dto.assigneeId.value)), "Task assigned");
        events.PublishEvent(TaskEvent(t, Assigned));
        return Ok(t);
      }
      r := Ok(task);
    }

    /** Unknown id: not-found and nothing happens. Otherwise the call runs as
        `UpdateExisting` describes; its records and events are appended even
        when the assignee lookup fails, while the store then keeps the old row. */
    method UpdateTask(id: TaskId, dto: TaskDto, now: DateTime) returns (r: Result<Task, Error>)
      requires Valid()
      modifies this, audit`records, events
      ensures Valid()
      ensures ids == old(ids) && nextId == old(nextId)
      ensures id !in old(store) ==>
                && r == Err(ResourceNotFound("Task", "id")) && store == old(store)
                && audit.records == old(audit.records) && events.published == old(events.published)
      ensures id in old(store) ==>
                var o := UpdateExisting(old(store)[id], dto, now, users.users);
                && r == o.result
                && audit.records == old(audit.records) + audit.Kept(o.records)
                && events.published == old(events.published) + o.events
                && store == (if r.Ok? then old(store)[id := r.value] else old(store))
    {
      if id !in store {
        return Err(ResourceNotFound("Task", "id"));
      }
      var t0 := store[id];
      UpdateExistingSteps(t0, dto, now, users.users);
      var outcome := UpdateSteps(t0, dto, now);
      if outcome.Err? {
        return Err(outcome.error);
      }
      var task := outcome.value;
      WellFormedReplace(ids, store, task);
      store := store[id := task];
      audit.Log("TASK", task.id, Update, "SYSTEM", None, None, "Task updated");
      KeptAppend(audit, StepRecords(t0, dto, now, users.users), [UpdateRecord(id)]);
      r := Ok(task);
    }

    /** The steps of updateTask before the save: fields, status, assignee. */
    method UpdateSteps(t0: Task, dto: TaskDto, now: DateTime) returns (r: Result<Task, Error>)
      modifies audit`records, events
      ensures var t1 := ApplyStatus(ApplyFields(t0, dto), t0.status, dto, now);
        var o := AssignStep(t1, t0.AssigneeId(), dto, users.users);
        && r == o.result
        && audit.records == old(audit.records) + audit.Kept(StatusRecords(t0.id, t0.status, dto) + o.records)
        && events.published == old(events.published) + StatusEvents(t1, t0.status, dto) + o.events
    {
      var task := ApplyFields(t0, dto);
      task := ChangeStatus(task, t0.status, dto, now);
      r := ChangeAssignee(task, t0.AssigneeId(), dto);
      KeptAppend(audit, StatusRecords(t0.id, t0.status, dto), AssignStep(task, t0.AssigneeId(), dto, users.users).records);
    }

    /** Unknown id: not-found and nothing happens. Otherwise removes the row
        and logs DELETE with the title as old value; no event is published. */
    method DeleteTask(id: TaskId) returns (r: Result<(), Error>)
      requires Valid()
      modifies this, audit`records
      ensures Valid()
      ensures nextId == old(nextId)
      ensures id !in old(store) ==>
                r == Err(ResourceNotFound("Task", "id")) && store == old(store) && ids == old(ids)
                && audit.records == old(audit.records)
      ensures id in old(store) ==>
                && r == Ok(())
                && store == old(store) - {id} && ids == Without(old(ids), id)
                && audit.records == old(audit.records)
                     + audit.Kept([AuditLog("TASK", id, Delete, "SYSTEM", Some(old(store)[id].title), None, "Task deleted")])
    {
      if id !in store {
        return Err(ResourceNotFound("Task", "id"));
      }
      var task := store[id];
      WithoutDistinct(ids, id);
      var rest := Without(ids, id);
      forall k | 0 <= k < |rest| ensures rest[k] in store - {id} {
        assert rest[k] in rest;
        var j :| 0 <= j < |ids| && ids[j] == rest[k];
      }
      store := store - {id};
      ids := Without(ids, id);
      audit.Log("TASK", id, Delete, "SYSTEM", Some(task.title), None, "Task deleted");
      r := Ok(());
    }

    /** Unknown id: not-found and nothing happens; otherwise sets the reminder
        flag and nothing else. No audit record, no event. */
    method MarkReminderSent(id: TaskId) returns (r: Result<(), Error>)
      requires Valid()
      modifies this`store
      ensures Valid()
      ensures id !in old(store) ==> r == Err(ResourceNotFound("Task", "id")) && store == old(store)
      ensures id in old(store) ==> r == Ok(()) && store == MarkSent(old(store), id)
    {
      if id !in store {
        return Err(ResourceNotFound("Task", "id"));
      }
      store := MarkSent(store, id);
      r := Ok(());
    }

    /** The rows the reminder query selects for a threshold, in table order. */
    function GetTasksNeedingReminder(threshold: DateTime): (r: seq<Task>)
      requires Valid()
      reads this
      ensures forall t :: t in r <==> t.id in store && store[t.id] == t && NeedsReminder(t, threshold)
    {
      FindTasksNeedingReminder(Rows(), threshold)
    }

    /** The rows a filter selects, in table order. */
    function GetFilteredTasks(f: TaskFilter): (r: seq<Task>)
      requires Valid()
      reads this
      ensures forall t :: t in r <==> t.id in store && store[t.id] == t && MatchesFieldwise(f, t)
    {
      FilterTasks(Rows(), f)
    }
  }
}
