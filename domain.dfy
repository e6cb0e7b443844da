/** The entities and transfer objects of the task-management service: tasks and
    their enums, users, audit records, the task and user DTOs, the task filter,
    and the errors the services raise. */
module Domain {
  import opened Wrappers
  import opened Text

  /** A point in time, in seconds on one common time line (LocalDateTime). */
  type DateTime = int

  const SecondsPerHour: int := 3600

  /** `LocalDateTime.plusHours`. */
  function PlusHours(t: DateTime, hours: int): DateTime {
    t + hours * SecondsPerHour
  }

  type TaskId = int
  type UserId = int

  datatype TaskStatus = Todo | InProgress | InReview | Completed | Cancelled

  datatype TaskPriority = Low | Medium | High | Critical

  /** The enum constant's name, as `toString` and `String.format("%s")` print it. */
  function StatusName(s: TaskStatus): string {
    match s
    case Todo => "TODO"
    case InProgress => "IN_PROGRESS"
    case InReview => "IN_REVIEW"
    case Completed => "COMPLETED"
    case Cancelled => "CANCELLED"
  }

  function PriorityName(p: TaskPriority): string {
    match p
    case Low => "LOW"
    case Medium => "MEDIUM"
    case High => "HIGH"
    case Critical => "CRITICAL"
  }

  /** `TaskStatus.valueOf`: exact, case-sensitive name lookup; None stands for
      IllegalArgumentException. */
  function ParseStatus(name: string): (r: Option<TaskStatus>)
    ensures r.Some? ==> StatusName(r.value) == name
  {
    if name == "TODO" then Some(Todo)
    else if name == "IN_PROGRESS" then Some(InProgress)
    else if name == "IN_REVIEW" then Some(InReview)
    else if name == "COMPLETED" then Some(Completed)
    else if name == "CANCELLED" then Some(Cancelled)
    else None
  }

  /** `TaskPriority.valueOf`. */
  function ParsePriority(name: string): (r: Option<TaskPriority>)
    ensures r.Some? ==> PriorityName(r.value) == name
  {
    if name == "LOW" then Some(Low)
    else if name == "MEDIUM" then Some(Medium)
    else if name == "HIGH" then Some(High)
    else if name == "CRITICAL" then Some(Critical)
    else None
  }

  /** Every status name is accepted by `valueOf`, which gives the status back. */
  lemma StatusNameRoundTrip(s: TaskStatus)
    ensures ParseStatus(StatusName(s)) == Some(s)
  {
  }

  lemma PriorityNameRoundTrip(p: TaskPriority)
    ensures ParsePriority(PriorityName(p)) == Some(p)
  {
  }

  /** A user as the services read it. The role enum's constants are not part of
      this model, so a role is carried by its name. */
  datatype User = User(
    id: UserId,
    username: string,
    email: string,
    password: string,
    firstName: Option<string>,
    lastName: Option<string>,
    phoneNumber: Option<string>,
    role: Option<string>,
    active: bool)

  /** A task row. `assignee` and `createdBy` hold the referenced users. */
  datatype Task = Task(
    id: TaskId,
    title: string,
    description: Option<string>,
    status: TaskStatus,
    priority: TaskPriority,
    dueDate: Option<DateTime>,
    assignee: Option<User>,
    createdBy: Option<User>,
    reminderSent: bool,
    estimatedHours: Option<int>,
    actualHours: Option<int>,
    tags: Option<string>,
    completedAt: Option<DateTime>)
  {
    /** The assignee's id, or null. */
    function AssigneeId(): Option<UserId> {
      if assignee.Some? then Some(assignee.value.id) else None
    }
  }

  datatype AuditAction =
    | Create | Update | Delete | StatusChange | Assign | Unassign
    | FileUpload | FileDelete | BulkImport

  /** An audit record; its generated id and creation timestamp are left out. */
  datatype AuditLog = AuditLog(
    entityType: string,
    entityId: int,
    action: AuditAction,
    performedBy: string,
    oldValue: Option<string>,
    newValue: Option<string>,
    details: string)

  /** The fields of `TaskDTO` the services read; null is None. */
  datatype TaskDto = TaskDto(
    title: Option<string>,
    description: Option<string>,
    status: Option<TaskStatus>,
    priority: Option<TaskPriority>,
    dueDate: Option<DateTime>,
    assigneeId: Option<UserId>,
    createdById: Option<UserId>,
    estimatedHours: Option<int>,
    actualHours: Option<int>,
    tags: Option<string>)

  /** A `TaskDTO` with every field null. */
  const EmptyTaskDto: TaskDto :=
    TaskDto(None, None, None, None, None, None, None, None, None, None)

  /** `TaskFilterDTO`: every criterion is optional. */
  datatype TaskFilter = TaskFilter(
    status: Option<TaskStatus>,
    priority: Option<TaskPriority>,
    assigneeId: Option<UserId>,
    dueDateFrom: Option<DateTime>,
    dueDateTo: Option<DateTime>,
    searchTerm: Option<string>,
    reminderSent: Option<bool>)

  /** The fields of `UserCreateDTO` that createUser reads. */
  datatype UserCreateDto = UserCreateDto(
    username: string,
    email: string,
    password: string,
    firstName: Option<string>,
    lastName: Option<string>,
    phoneNumber: Option<string>,
    role: Option<string>)

  /** The fields of `UserDTO` that updateUser reads. */
  datatype UserDto = UserDto(
    email: Option<string>,
    firstName: Option<string>,
    lastName: Option<string>,
    phoneNumber: Option<string>,
    role: Option<string>,
    active: Option<bool>)

  /** The exceptions the services throw, by class and the arguments that identify them. */
  datatype Error =
    | ResourceNotFound(resource: string, field: string)
    | DuplicateResource(resource: string, field: string)
    | FileStorageError(message: string)
    | IllegalArgument(what: string)
    | ConstraintViolation(column: string)
}
