/** `TaskEventListener`: turns a published task event into at most one
    notification, built from the task snapshot the event carries. */
module Listener {
  import opened Wrappers
  import opened Text
  import opened Domain
  import opened Events

  const AssignedPrefix: string := "New Task Assigned: "
  const StatusPrefix: string := "Task Status Updated: "
  const ReminderPrefix: string := "Task Reminder: "
  const Signature: string := "Best regards,\nTask Management System"

  /** The assignee's first name, or the username when it is null. */
  function Greeting(u: User): (g: string)
    ensures u.firstName.Some? ==> g == u.firstName.value
    ensures u.firstName.None? ==> g == u.username
  {
    if u.firstName.Some? then u.firstName.value else u.username
  }

  /** A nullable text, with "N/A" for null. */
  function OrNA(s: Option<string>): string {
    if s.Some? then s.value else "N/A"
  }

  /** A nullable due date rendered by `show` (`LocalDateTime.toString`), with "N/A" for null. */
  function DueText(d: Option<DateTime>, show: DateTime -> string): string {
    if d.Some? then show(d.value) else "N/A"
  }

  function GreetingLine(u: User): string {
    "Hello " + Greeting(u) + ",\n\n"
  }

  function TitleLine(t: Task): string {
    "Title: " + t.title + "\n"
  }

  function DescriptionLine(t: Task): string {
    "Description: " + OrNA(t.description) + "\n"
  }

  function PriorityLine(t: Task): string {
    "Priority: " + PriorityName(t.priority) + "\n"
  }

  function DueLine(t: Task, show: DateTime -> string): string {
    "Due Date: " + DueText(t.dueDate, show) + "\n\n"
  }

  /** The message text: its parts joined, as `String.format` fills the template. */
  function Concat(parts: seq<string>): string {
    if parts == [] then "" else parts[0] + Concat(parts[1..])
  }

  lemma {:induction false} ConcatSplit(parts: seq<string>, i: nat)
    requires i < |parts|
    ensures Concat(parts) == Concat(parts[..i]) + parts[i] + Concat(parts[i + 1..])
  {
    if i > 0 {
      ConcatSplit(parts[1..], i - 1);
      assert parts[1..][..i - 1] == parts[1..i];
      assert parts[..i][1..] == parts[1..i];
      assert parts[1..][i..] == parts[i + 1..];
    }
  }

  lemma NullDescriptionLine(t: Task)
    requires t.description.None?
    ensures DescriptionLine(t) == "Description: N/A\n"
  {
  }

  lemma NullDueLine(t: Task, show: DateTime -> string)
    requires t.dueDate.None?
    ensures DueLine(t, show) == "Due Date: N/A\n\n"
  {
  }

  /** Every part occurs in the joined text. */
  lemma PartShows(parts: seq<string>, i: nat)
    requires i < |parts|
    ensures Contains(Concat(parts), parts[i])
  {
    ConcatSplit(parts, i);
    ContainsMiddle(Concat(parts[..i]), parts[i], Concat(parts[i + 1..]));
  }

  /** `buildAssignmentMessage`, part by part. */
  function AssignmentParts(t: Task, show: DateTime -> string): seq<string>
    requires t.assignee.Some?
  {
    [GreetingLine(t.assignee.value), "You have been assigned a new task:\n\n",
     TitleLine(t), DescriptionLine(t), PriorityLine(t), DueLine(t, show),
     "Please review and start working on it.\n\n", Signature]
  }

  /** `buildStatusChangeMessage`, part by part: title, new status and priority only. */
  function StatusChangeParts(t: Task): seq<string>
    requires t.assignee.Some?
  {
    [GreetingLine(t.assignee.value), "The status of your task has been updated:\n\n",
     TitleLine(t), "New Status: " + StatusName(t.status) + "\n", PriorityLine(t), "\n", Signature]
  }

  /** `buildReminderMessage`, part by part. */
  function ReminderParts(t: Task, show: DateTime -> string): seq<string>
    requires t.assignee.Some?
  {
    [GreetingLine(t.assignee.value), "This is a reminder about your upcoming task:\n\n",
     TitleLine(t), DescriptionLine(t), PriorityLine(t), DueLine(t, show),
     "Please ensure you complete it on time.\n\n", Signature]
  }

  /** The notification type an event type maps to, if any. */
  function KindOf(e: EventType): Option<NotificationType> {
    match e
    case Assigned => Some(TaskAssigned)
    case StatusChanged => Some(TaskStatusChanged)
    case Reminder => Some(TaskReminder)
    case _ => None
  }

  /** `handleTaskEvent`: the notification handed to `sendNotification`, or
      None when the event type has no notification or the task has no
      assignee. `now` is the time the message is built at. */
  function HandleTaskEvent(e: TaskEvent, now: DateTime, show: DateTime -> string): Option<NotificationMessage> {
    var t := e.task;
    if t.assignee.None? then None
    else
      match e.eventType
      case Assigned =>
        Some(NotificationMessage(t.assignee.value.email, AssignedPrefix + t.title,
                                 Concat(AssignmentParts(t, show)), TaskAssigned, t.id, now))
      case StatusChanged =>
        Some(NotificationMessage(t.assignee.value.email, StatusPrefix + t.title,
                                 Concat(StatusChangeParts(t)), TaskStatusChanged, t.id, now))
      case Reminder =>
        Some(NotificationMessage(t.assignee.value.email, ReminderPrefix + t.title,
                                 Concat(ReminderParts(t, show)), TaskReminder, t.id, now))
      case _ => None
  }

  /** A notification exists exactly for ASSIGNED, STATUS_CHANGED and REMINDER
      on an assigned task; its type is the mapped one (never TASK_OVERDUE),
      and it goes to the assignee's e-mail about this task. */
  lemma HandleTaskEventDispatch(e: TaskEvent, now: DateTime, show: DateTime -> string)
    ensures HandleTaskEvent(e, now, show).Some? <==> e.task.assignee.Some? && KindOf(e.eventType).Some?
    ensures HandleTaskEvent(e, now, show).Some? ==>
              var n := HandleTaskEvent(e, now, show).value;
              && Some(n.notificationType) == KindOf(e.eventType)
              && n.notificationType != TaskOverdue
              && n.recipient == e.task.assignee.value.email
              && n.taskId == e.task.id
              && n.timestamp == now
  {
  }

  /** CREATED, UPDATED and DELETED events, and any event on an unassigned
      task, produce nothing. */
  lemma SilentEvents(e: TaskEvent, now: DateTime, show: DateTime -> string)
    requires e.eventType in {Created, Updated, Deleted} || e.task.assignee.None?
    ensures HandleTaskEvent(e, now, show) == None
  {
  }

  /** The subject is the type's fixed prefix followed by the title. */
  lemma SubjectIsPrefixedTitle(e: TaskEvent, now: DateTime, show: DateTime -> string)
    requires HandleTaskEvent(e, now, show).Some?
    ensures var n := HandleTaskEvent(e, now, show).value;
      var prefix := match n.notificationType
        case TaskAssigned => AssignedPrefix
        case TaskStatusChanged => StatusPrefix
        case _ => ReminderPrefix;
      n.subject == prefix + e.task.title && e.task.title <= n.subject[|prefix|..]
  {
  }

  /** Every body opens with "Hello ", the greeting name and a comma. */
  lemma BodyGreets(e: TaskEvent, now: DateTime, show: DateTime -> string)
    requires HandleTaskEvent(e, now, show).Some?
    ensures "Hello " + Greeting(e.task.assignee.value) + ",\n\n" <= HandleTaskEvent(e, now, show).value.message
  {
    var t := e.task;
    var parts :=
      if e.eventType == Assigned then AssignmentParts(t, show)
      else if e.eventType == StatusChanged then StatusChangeParts(t)
      else ReminderParts(t, show);
    ConcatSplit(parts, 0);
    assert Concat(parts[..0]) == "";
  }

  /** Assignment and reminder bodies show "N/A" for a null description and
      for a null due date. */
  lemma BodiesShowNA(t: Task, show: DateTime -> string)
    requires t.assignee.Some?
    ensures t.description.None? ==>
              Contains(Concat(AssignmentParts(t, show)), "Description: N/A\n")
              && Contains(Concat(ReminderParts(t, show)), "Description: N/A\n")
    ensures t.dueDate.None? ==>
              Contains(Concat(AssignmentParts(t, show)), "Due Date: N/A\n\n")
              && Contains(Concat(ReminderParts(t, show)), "Due Date: N/A\n\n")
  {
    if t.description.None? {
      NullDescriptionLine(t);
      PartShows(AssignmentParts(t, show), 3);
      PartShows(ReminderParts(t, show), 3);
    }
    if t.dueDate.None? {
      NullDueLine(t, show);
      PartShows(AssignmentParts(t, show), 5);
      PartShows(ReminderParts(t, show), 5);
    }
  }

  /** Every body shows the task's title and priority. */
  lemma BodiesShowTitleAndPriority(t: Task, show: DateTime -> string)
    requires t.assignee.Some?
    ensures Contains(Concat(AssignmentParts(t, show)), "Title: " + t.title + "\n")
    ensures Contains(Concat(StatusChangeParts(t)), "Title: " + t.title + "\n")
    ensures Contains(Concat(ReminderParts(t, show)), "Title: " + t.title + "\n")
    ensures Contains(Concat(AssignmentParts(t, show)), "Priority: " + PriorityName(t.priority) + "\n")
    ensures Contains(Concat(StatusChangeParts(t)), "Priority: " + PriorityName(t.priority) + "\n")
    ensures Contains(Concat(ReminderParts(t, show)), "Priority: " + PriorityName(t.priority) + "\n")
  {
    PartShows(AssignmentParts(t, show), 2);
    PartShows(StatusChangeParts(t), 2);
    PartShows(ReminderParts(t, show), 2);
    PartShows(AssignmentParts(t, show), 4);
    PartShows(StatusChangeParts(t), 4);
    PartShows(ReminderParts(t, show), 4);
  }

  /** The status-change body names the task's new status. */
  lemma StatusBodyShowsNewStatus(t: Task)
    requires t.assignee.Some?
    ensures Contains(Concat(StatusChangeParts(t)), "New Status: " + StatusName(t.status) + "\n")
  {
    PartShows(StatusChangeParts(t), 3);
  }

  /** Assignment and reminder bodies print a present description and a
      present due date, the latter as `show` renders it. */
  lemma BodiesShowDescriptionAndDueDate(t: Task, show: DateTime -> string)
    requires t.assignee.Some?
    ensures t.description.Some? ==>
              Contains(Concat(AssignmentParts(t, show)), "Description: " + t.description.value + "\n")
              && Contains(Concat(ReminderParts(t, show)), "Description: " + t.description.value + "\n")
    ensures t.dueDate.Some? ==>
              Contains(Concat(AssignmentParts(t, show)), "Due Date: " + show(t.dueDate.value) + "\n\n")
              && Contains(Concat(ReminderParts(t, show)), "Due Date: " + show(t.dueDate.value) + "\n\n")
  {
    PartShows(AssignmentParts(t, show), 3);
    PartShows(ReminderParts(t, show), 3);
    PartShows(AssignmentParts(t, show), 5);
    PartShows(ReminderParts(t, show), 5);
  }

  /** The status-change body reads neither the description nor the due date. */
  lemma StatusBodyIgnoresDescriptionAndDueDate(t: Task, description: Option<string>, dueDate: Option<DateTime>)
    requires t.assignee.Some?
    ensures StatusChangeParts(t) == StatusChangeParts(t.(description := description, dueDate := dueDate))
  {
  }
}
