# Task management and notification pipeline, in Dafny

This project models the core of a Spring task-management service. Tasks are created,
updated, deleted and flagged as reminded, and every change appends audit records and
publishes task events. A listener turns the events into notification messages. A
publisher sends each message to a Kafka topic and also e-mails it directly. A consumer
e-mails every message it reads from the topic. An hourly job selects the tasks due
within a configured number of hours and sends each one a reminder. Around this sit the
task queries, the task filter, the audit log, the user store, the CSV importer and the
file-attachment service.

Each Java class of the core has its own Dafny module:

| module | Java class | form |
|---|---|---|
| `Domain` | `Task`, `AuditLog`, the DTOs, the exceptions | datatypes |
| `Text`, `SqlLike`, `Seqs`, `Wrappers` | `String` and `Long` behaviour, SQL `LIKE`, list selection, null and exceptions | functions and lemmas |
| `Audit` | `AuditLogService` | class: an append-only `records` sequence |
| `Events` | `TaskEvent`, `NotificationMessage`, the Spring event publisher | datatypes, and a class holding the published events in order |
| `Users` | `UserService` | class: a user map |
| `Repository` | `TaskRepository` | selection predicates, and filters over the rows |
| `Specification` | `TaskSpecification` | a list of criteria and its conjunction |
| `Tasks` | `TaskService` | class: a task map, the row ids in insertion order, the next id |
| `Listener` | `TaskEventListener` | a pure function from event to optional notification |
| `Notifications` | `NotificationService` | class: a log of broker sends and e-mail sends |
| `Consumer` | `NotificationConsumerService` | pure dispatch returning the mail attempted |
| `Scheduler` | `ScheduledNotificationService` | class whose loop drives `TaskService` |
| `CsvImport` | `CsvImportService` | record parsing as functions, and the import loop as a method |
| `FileStorage` | `FileStorageService` | the key and URL functions; upload and delete over an attachment map and a set of stored keys |

Each state-changing method is specified by pure functions of the old state. Examples:
- `TaskService.UpdateTask` ends in the outcome `UpdateExisting` computes from the stored
  task;
- `SendTaskReminders` leaves the store as `MarkEach` of the marked ids;
- `ImportTasksFromCsv` returns `Imports` of the records.

Lemmas state the source's promises about those functions.

Facts about the code that a reader of the service might not expect:
- **No commit gate.** Events are published during the `@Transactional` method, and the
  listener is a plain `@Async @EventListener`. Nothing holds events back until commit.
  `EventPublisher.published` is therefore an ordered log.
- **A failed update still notifies.** When the assignee lookup of `updateTask` fails
  after a status change, the STATUS_CHANGE audit record and the STATUS_CHANGED event are
  already out. The audit write is `@Async` and commits on its own. The task row is not
  saved. `Tasks.FailedUpdateStillNotifies` states this.
- **`completedAt` is never cleared.** It is stamped on a change into COMPLETED and left
  as it is on every other change. It is not set when a task is created with status
  COMPLETED. So "set if and only if COMPLETED" does not hold.
- **An update can append up to three records.** A status change adds STATUS_CHANGE, an
  assignee change adds ASSIGN, and every successful call adds UPDATE.
- **An unresolvable reference is a not-found error.** An assignee or creator id that
  resolves to no user fails with `ResourceNotFoundException("User", "id", …)`.
- **E-mail is sent on both paths.** `sendNotification` e-mails directly and also sends
  to the topic, and the consumer e-mails again. `Consumer.DoubleDelivery` states this.
- **No event on delete.** `deleteTask` publishes nothing, and a DELETED event would
  produce no notification anyway.
- **Deleting a task deletes its attachments.** The task's attachment relation cascades
  (`Task.java:57`). The stored files are not removed.

## Model

| member | source | states |
|---|---|---|
| Domain.ParseStatus | src/main/java/com/taskmanagement/model/Task.java:84-90 | `valueOf` accepts only the exact name of the constant it returns |
| Domain.StatusNameRoundTrip | src/main/java/com/taskmanagement/model/Task.java:84-90 | `valueOf` of every status's printed name gives that status back |
| Domain.PriorityNameRoundTrip | src/main/java/com/taskmanagement/model/Task.java:92-97 | `valueOf` of every priority's printed name gives that priority back |
| Domain.ParsePriority | src/main/java/com/taskmanagement/model/Task.java:92-97 | `valueOf` accepts only the exact name of the constant it returns |
| Text.ParseInteger | src/main/java/com/taskmanagement/service/CsvImportService.java:122-139 | `Long.parseLong` and `Integer.parseInt`: an optional sign then ASCII digits, nothing else; the value the digits denote, negated after '-', when it lies in the type's range, otherwise a failure |
| Text.ParseExamples | src/main/java/com/taskmanagement/service/CsvImportService.java:122-139 | "007" and "+5" parse; "-", "", "1a" and "+-5" fail |
| Text.LastIndexOf | src/main/java/com/taskmanagement/service/FileStorageService.java:243 | the result is -1 or an index holding the character, and no later index holds it |
| Text.ParseRendered | src/main/java/com/taskmanagement/service/CsvImportService.java:122-129 | `Long.parseLong` of the decimal rendering of any id in range gives the id back |
| Text.RenderingInjective | src/main/java/com/taskmanagement/service/TaskService.java:138-142 | distinct ids render to distinct strings, so the ASSIGN record's old and new values identify the users |
| SqlLike.LikeIsContains | src/main/java/com/taskmanagement/repository/TaskRepository.java:30 | for a term with no `%` or `_`, `LIKE '%term%'` holds exactly when the term is a substring |
| Repository.FindByStatus | src/main/java/com/taskmanagement/repository/TaskRepository.java:16 | exactly the rows with that status, each as often as stored |
| Repository.FindByAssigneeId | src/main/java/com/taskmanagement/repository/TaskRepository.java:18 | exactly the rows assigned to that user id; unassigned rows never match |
| Repository.FindByPriority | src/main/java/com/taskmanagement/repository/TaskRepository.java:20 | exactly the rows with that priority |
| Repository.FindByDueDateBetween | src/main/java/com/taskmanagement/repository/TaskRepository.java:22 | exactly the rows with a due date in [start, end], both ends included |
| Repository.FindTasksNeedingReminder | src/main/java/com/taskmanagement/repository/TaskRepository.java:24-25 | a row is selected if and only if it is due no later than the threshold, not yet reminded, and neither COMPLETED nor CANCELLED |
| Repository.NoDueDateNoReminder | src/main/java/com/taskmanagement/repository/TaskRepository.java:24 | a task without a due date is never selected for a reminder |
| Repository.FindByAssigneeIdAndStatus | src/main/java/com/taskmanagement/repository/TaskRepository.java:27-28 | a row is selected if and only if both the assignee id and the status match |
| Repository.SearchTasks | src/main/java/com/taskmanagement/repository/TaskRepository.java:30-31 | a row is selected if and only if the lower-cased term occurs in the lower-cased title or description |
| Repository.SearchAgreesWithoutWildcards | src/main/java/com/taskmanagement/repository/TaskRepository.java:30-31 | for a term with no `%` or `_`, the query as written agrees with substring search |
| Repository.SearchWildcardCounterexample | src/main/java/com/taskmanagement/repository/TaskRepository.java:30-31 | the term "a_c" finds the title "abc" as written, although "a_c" does not occur in it |
| Specification.MatchesIsFieldwise | src/main/java/com/taskmanagement/repository/TaskSpecification.java:15-52 | the conjunction of the accumulated predicates is exactly the field-by-field reading: a null criterion imposes nothing, the date bounds are inclusive, and a bounded date excludes tasks without one |
| Specification.EmptyFilterMatchesAll | src/main/java/com/taskmanagement/repository/TaskSpecification.java:41 | an all-null filter, or one with only an empty search term, matches every task |
| Specification.NarrowingShrinks | src/main/java/com/taskmanagement/repository/TaskSpecification.java:52 | adding criteria never enlarges the matched set |
| Specification.FilterTasks | src/main/java/com/taskmanagement/repository/TaskSpecification.java:13-54 | exactly the rows the filter matches, each as often as stored |
| Audit.AuditLogService.Log | src/main/java/com/taskmanagement/service/AuditLogService.java:20-40 | appends exactly one record with the given values, or nothing when the save fails; the call always returns and earlier records stay a prefix |
| Audit.AuditLogService.GetAuditLogsForEntity | src/main/java/com/taskmanagement/service/AuditLogService.java:42-45 | exactly the records whose entity type and id both match, each as often as logged |
| Audit.AuditLogService.GetAuditLogsByUser | src/main/java/com/taskmanagement/service/AuditLogService.java:47-50 | exactly the records performed by that user |
| Audit.ViewsCoverLog | src/main/java/com/taskmanagement/service/AuditLogService.java:42-55 | the full log and the two filtered views agree: a record is in the log exactly when the view for its entity, and the view for its actor, list it, each as often as the log does |
| Users.NewUser | src/main/java/com/taskmanagement/service/UserService.java:42-51 | a created user is active and stores the encoded password |
| Users.ApplyUserUpdate | src/main/java/com/taskmanagement/service/UserService.java:101-105 | each non-null field among e-mail, first and last name, phone, role and active replaces the stored one, and each null field keeps it; id, username and password never change |
| Users.UserService.CreateUser | src/main/java/com/taskmanagement/service/UserService.java:30-61 | a taken username is rejected first, then a taken e-mail, saving nothing; otherwise the new user is saved under a fresh id and one CREATE record is logged |
| Users.UserService.GetUserEntityById | src/main/java/com/taskmanagement/service/UserService.java:133-137 | the stored user, or not-found exactly when the id is unknown |
| Users.UserService.GetUserByUsername | src/main/java/com/taskmanagement/service/UserService.java:70-75 | the user with that username, or not-found exactly when none has it |
| Users.UserService.UpdateUser | src/main/java/com/taskmanagement/service/UserService.java:84-115 | succeeds if and only if the id is known and the e-mail is unchanged, absent or free; unknown id gives not-found; a new e-mail already taken gives duplicate; on success only the non-null fields change and one UPDATE record is logged with the old and new renderings |
| Users.UserService.DeleteUser | src/main/java/com/taskmanagement/service/UserService.java:117-131 | unknown id gives not-found and nothing changes; otherwise the user is removed and one DELETE record carries the username |
| Tasks.ResolveUserIsUserLookup | src/main/java/com/taskmanagement/service/TaskService.java:50-59 | a given assignee or creator id is resolved exactly as `UserService.getUserEntityById` resolves it: the same user, or the same not-found error; the user found carries the id given |
| Tasks.NewTaskDefaults | src/main/java/com/taskmanagement/service/TaskService.java:38-47 | status TODO and priority MEDIUM when not given, otherwise the given ones; reminder not sent; no actual hours and no completion time |
| Tasks.CreateOutcome | src/main/java/com/taskmanagement/service/TaskService.java:38-61 | an unresolvable assignee or creator id fails with not-found before anything is saved; success if and only if both resolve and a title is given |
| Tasks.CreateEventsExact | src/main/java/com/taskmanagement/service/TaskService.java:67-70 | one ASSIGNED event exactly when the saved task has an assignee, and no other event |
| Tasks.TaskService.CreateTask | src/main/java/com/taskmanagement/service/TaskService.java:34-74 | on success: the task under the next id, one CREATE record, then the ASSIGNED event if assigned; on error: nothing saved, logged or published |
| Tasks.ApplyFieldsSpec | src/main/java/com/taskmanagement/service/TaskService.java:108-115 | each non-null field among title, description, priority, due date, estimated and actual hours and tags replaces the stored one; every other field is kept |
| Tasks.UpdateChangesOnlyGivenFields | src/main/java/com/taskmanagement/service/TaskService.java:108-115 | after a successful update the plain fields are exactly the given-or-kept values; id, creator and reminder flag are untouched |
| Tasks.UpdateKeepsFieldsOf | src/main/java/com/taskmanagement/service/TaskService.java:117-146 | the status and assignee steps leave every plain field as the field step set it |
| Tasks.UpdatedTask | src/main/java/com/taskmanagement/service/TaskService.java:108-148 | the saved task is the field step, then the status step, then the looked-up assignee if it changed |
| Tasks.UpdateStatusRule | src/main/java/com/taskmanagement/service/TaskService.java:117-130 | the status moves only when a different status is given; completion is stamped only on a change into COMPLETED and is never cleared |
| Tasks.UpdateAssigneeRule | src/main/java/com/taskmanagement/service/TaskService.java:132-146 | the assignee moves only when a different id is given, to the user looked up; an update never unassigns |
| Tasks.UpdateRecordsAndEvents | src/main/java/com/taskmanagement/service/TaskService.java:117-152 | records: STATUS_CHANGE if the status changed, then ASSIGN if the assignee changed, then exactly one UPDATE, last; events: STATUS_CHANGED, then ASSIGNED, each only on its change |
| Tasks.FailedUpdateStillNotifies | src/main/java/com/taskmanagement/service/TaskService.java:117-146 | the update fails if and only if a new assignee id resolves to no user; the STATUS_CHANGE record and STATUS_CHANGED event of that call are still out, and no ASSIGN or UPDATE follows |
| Tasks.EmptyUpdateIsNoOp | src/main/java/com/taskmanagement/service/TaskService.java:98-156 | an all-null DTO saves the task unchanged with one UPDATE record and no event |
| Tasks.StartWorkScenario | src/main/java/com/taskmanagement/service/TaskService.java:117-130 | TODO to IN_PROGRESS: one STATUS_CHANGE record with "TODO" and "IN_PROGRESS", then UPDATE; one STATUS_CHANGED event; no completion time |
| Tasks.TaskService.ChangeStatus | src/main/java/com/taskmanagement/service/TaskService.java:117-130 | the status step: the task as `ApplyStatus` gives it, with its record and event appended only on a change |
| Tasks.TaskService.ChangeAssignee | src/main/java/com/taskmanagement/service/TaskService.java:132-146 | the assignee step: lookup, ASSIGN record and ASSIGNED event only on a change; not-found appends nothing |
| Tasks.TaskService.UpdateTask | src/main/java/com/taskmanagement/service/TaskService.java:98-156 | unknown id gives not-found and nothing happens; otherwise the result, records and events are those of `UpdateExisting`, and the row is replaced only on success |
| Tasks.TaskService.DeleteTask | src/main/java/com/taskmanagement/service/TaskService.java:158-172 | unknown id gives not-found and nothing changes; otherwise the row is removed and one DELETE record carries the title; no event |
| Tasks.MarkSent | src/main/java/com/taskmanagement/service/TaskService.java:174-180 | sets the reminder flag of that task and changes no other row |
| Tasks.MarkSentIdempotent | src/main/java/com/taskmanagement/service/TaskService.java:174-180 | only the reminder flag moves, and marking twice equals marking once |
| Tasks.TaskService.MarkReminderSent | src/main/java/com/taskmanagement/service/TaskService.java:174-180 | unknown id gives not-found and nothing changes; otherwise the store becomes `MarkSent` of it |
| Tasks.TaskService.GetTasksNeedingReminder | src/main/java/com/taskmanagement/service/TaskService.java:182-185 | exactly the stored tasks the reminder query selects |
| Tasks.TaskService.GetFilteredTasks | src/main/java/com/taskmanagement/service/TaskService.java:90-96 | exactly the stored tasks the filter matches, field by field |
| Listener.HandleTaskEventDispatch | src/main/java/com/taskmanagement/event/TaskEventListener.java:22-91 | a notification exists if and only if the event is ASSIGNED, STATUS_CHANGED or REMINDER and the task has an assignee; its type is the mapped one (never TASK_OVERDUE), its recipient the assignee's e-mail and its task id the task's |
| Listener.SilentEvents | src/main/java/com/taskmanagement/event/TaskEventListener.java:27-45 | CREATED, UPDATED and DELETED events, and any event on an unassigned task, produce nothing |
| Listener.SubjectIsPrefixedTitle | src/main/java/com/taskmanagement/event/TaskEventListener.java:47-88 | the subject is the type's fixed prefix followed by the title |
| Listener.BodyGreets | src/main/java/com/taskmanagement/event/TaskEventListener.java:93-145 | every body opens with "Hello ", the greeting name and a comma |
| Listener.BodiesShowNA | src/main/java/com/taskmanagement/event/TaskEventListener.java:93-110 | assignment and reminder bodies show "N/A" for a null description and for a null due date |
| Listener.BodiesShowTitleAndPriority | src/main/java/com/taskmanagement/event/TaskEventListener.java:93-145 | every body shows the title line and the priority line |
| Listener.StatusBodyShowsNewStatus | src/main/java/com/taskmanagement/event/TaskEventListener.java:112-126 | the status-change body shows "New Status: " and the new status's name |
| Listener.BodiesShowDescriptionAndDueDate | src/main/java/com/taskmanagement/event/TaskEventListener.java:93-110 | assignment and reminder bodies print a present description, and a present due date as rendered |
| Listener.StatusBodyIgnoresDescriptionAndDueDate | src/main/java/com/taskmanagement/event/TaskEventListener.java:112-126 | the status-change body does not depend on the description or the due date |
| Notifications.NotificationService.SendEmail | src/main/java/com/taskmanagement/service/NotificationService.java:48-61 | one e-mail attempt with the notification's recipient, subject and text; a failure is recorded and not raised |
| Notifications.NotificationService.SendNotification | src/main/java/com/taskmanagement/service/NotificationService.java:27-46 | appends exactly the effects `PublishEffects` gives for the enable flag and the topic |
| Notifications.DisabledSendsNothing | src/main/java/com/taskmanagement/service/NotificationService.java:29-32 | disabled: no broker send and no e-mail |
| Notifications.EnabledSendsBrokerThenEmail | src/main/java/com/taskmanagement/service/NotificationService.java:36-45 | enabled: exactly one broker send of the message to the topic, then one e-mail copying it verbatim, even when the broker send failed |
| Consumer.EveryTypeSendsEmailOnly | src/main/java/com/taskmanagement/service/NotificationConsumerService.java:42-125 | every type's handler is one `sendEmail` call and nothing else, and the type does not change what is sent |
| Consumer.ConsumeAttemptsAtMostOnce | src/main/java/com/taskmanagement/service/NotificationConsumerService.java:36-150 | no mail sender: nothing sent and no error; otherwise exactly one verbatim attempt, and a failure is logged, not retried and not raised |
| Consumer.DoubleDelivery | src/main/java/com/taskmanagement/service/NotificationService.java:44-45 | with everything working, the recipient gets the same mail from the publisher and again from the consumer |
| Scheduler.ReminderWindow | src/main/java/com/taskmanagement/service/ScheduledNotificationService.java:31-32 | an open, not yet reminded task with a due date is selected if and only if it is due no later than now plus the configured hours; overdue tasks are included |
| Scheduler.MarkEach | src/main/java/com/taskmanagement/service/ScheduledNotificationService.java:36-48 | the store with the reminder flag set on exactly the marked ids; the keys do not change |
| Scheduler.MarkedIdsMembership | src/main/java/com/taskmanagement/service/ScheduledNotificationService.java:36-48 | a task is marked if and only if it was selected and neither its publish nor its mark threw |
| Scheduler.RemindersFollowSelection | src/main/java/com/taskmanagement/service/ScheduledNotificationService.java:36-39 | with no publish failure, one REMINDER event per selected task, in selection order |
| Scheduler.RerunSelectsNothing | src/main/java/com/taskmanagement/service/ScheduledNotificationService.java:36-42 | after a run with no failure, a run with the same threshold selects nothing |
| Scheduler.FailedReminderRetried | src/main/java/com/taskmanagement/service/ScheduledNotificationService.java:45-47 | a task whose publish or mark threw is selected again by the next run |
| Scheduler.ScheduledNotificationService.SendTaskReminders | src/main/java/com/taskmanagement/service/ScheduledNotificationService.java:26-54 | a failing query changes nothing; otherwise the store is `MarkEach` of the tasks that went through and the events are their REMINDER events in order |
| Scheduler.ScheduledNotificationService.RemindAll | src/main/java/com/taskmanagement/service/ScheduledNotificationService.java:36-48 | the loop: a failure on one task does not stop the others |
| Scheduler.ScheduledNotificationService.RemindOne | src/main/java/com/taskmanagement/service/ScheduledNotificationService.java:37-47 | publish comes before mark, and a task whose publish threw is not marked |
| CsvImport.Lenient | src/main/java/com/taskmanagement/service/CsvImportService.java:112-139 | a null or empty cell gives null; any other cell gives exactly what the parse gives, null when it throws |
| CsvImport.StatusCell | src/main/java/com/taskmanagement/service/CsvImportService.java:104-105 | no column gives TODO; otherwise the upper-cased cell must name a status, or the record fails |
| CsvImport.PriorityCell | src/main/java/com/taskmanagement/service/CsvImportService.java:108-109 | no column gives MEDIUM; otherwise the upper-cased cell must name a priority, or the record fails |
| CsvImport.ParseTaskFromCsvRecord | src/main/java/com/taskmanagement/service/CsvImportService.java:94-145 | a record parses if and only if it has a title column and valid status and priority cells; each DTO field is the one its column gives |
| CsvImport.EnumCellsIgnoreCase | src/main/java/com/taskmanagement/service/CsvImportService.java:104-109 | status and priority cells are read case-insensitively |
| CsvImport.EnumCellsReadNames | src/main/java/com/taskmanagement/service/CsvImportService.java:104-109 | every printed status or priority name is read back as that constant |
| CsvImport.EmptyEnumCellFailsRecord | src/main/java/com/taskmanagement/service/CsvImportService.java:104-109 | an empty status or priority cell fails the record |
| CsvImport.LenientCellsNeverFail | src/main/java/com/taskmanagement/service/CsvImportService.java:111-139 | the due date, assignee id and estimated hours cells never decide whether a record parses |
| CsvImport.ImportsNumbering | src/main/java/com/taskmanagement/service/CsvImportService.java:62-77 | at most one task per record, with consecutive ids in file order |
| CsvImport.CleanFileImportsEveryRow | src/main/java/com/taskmanagement/service/CsvImportService.java:62-77 | when every record parses and names no assignee, every record becomes a task |
| CsvImport.FailedRecordSkipped | src/main/java/com/taskmanagement/service/CsvImportService.java:62-77 | a record that fails to parse or to create is skipped, and the other records import exactly as if it were not in the file |
| CsvImport.RecordFailureIgnoresId | src/main/java/com/taskmanagement/service/CsvImportService.java:62-77 | whether a record fails does not depend on the id it would receive |
| CsvImport.CsvImportService.ImportTasksFromCsv | src/main/java/com/taskmanagement/service/CsvImportService.java:38-92 | an empty file is refused; more than maxRows records fail with the wrapped message before any task is created; otherwise the created tasks in file order, their CREATE records, then one BULK_IMPORT record with the count |
| CsvImport.CsvImportService.ImportAll | src/main/java/com/taskmanagement/service/CsvImportService.java:62-77 | the loop returns `Imports` of the records: a failing record is skipped and the loop goes on |
| CsvImport.CsvImportService.ImportOne | src/main/java/com/taskmanagement/service/CsvImportService.java:63-76 | one record: parse, then create; a created task joins the result, and a failure creates nothing |
| FileStorage.StorageTypeIgnoresCase | src/main/java/com/taskmanagement/service/FileStorageService.java:88 | "S3" is matched case-insensitively, and any other value means local storage |
| FileStorage.FileExtension | src/main/java/com/taskmanagement/service/FileStorageService.java:241-246 | non-empty if and only if a '.' occurs after the first character; then it starts at the last '.' and is a suffix of the name |
| FileStorage.ExtensionExamples | src/main/java/com/taskmanagement/service/FileStorageService.java:241-246 | "a.tar.gz" gives ".gz", "notes." gives "."; ".bashrc" and "README" give "" |
| FileStorage.GenerateFileKey | src/main/java/com/taskmanagement/service/FileStorageService.java:241-248 | the UUID followed by the extension |
| FileStorage.KeyKeepsExtension | src/main/java/com/taskmanagement/service/FileStorageService.java:247 | the key has the same extension as the uploaded name |
| FileStorage.LocalUrlsDistinct | src/main/java/com/taskmanagement/service/FileStorageService.java:160-167 | under local storage distinct keys give distinct download URLs ("/api/files/download/" then the key) |
| FileStorage.FileStorageService.UploadFile | src/main/java/com/taskmanagement/service/FileStorageService.java:69-115 | succeeds if and only if the file is non-empty, the task exists and storage works; an empty file is refused before the task lookup, a missing task gives not-found, a storage failure is wrapped; only success stores the key, saves the attachment and logs FILE_UPLOAD |
| FileStorage.FileStorageService.DeleteFile | src/main/java/com/taskmanagement/service/FileStorageService.java:131-158 | succeeds if and only if the attachment exists and storage works; an attachment unknown or deleted with its task gives not-found; a storage failure is wrapped and changes nothing; success removes the key and the attachment and logs FILE_DELETE |

## Left out

- Threads and transactions: `@Async`, `@EventListener`, `@KafkaListener`, `@Scheduled` and `@Transactional` are read as plain synchronous calls in program order. Nothing is rolled back, because no path in the model needs it: every error path writes nothing to the store.
- Time: `LocalDateTime` is a count of seconds. `now()` is a parameter. `LocalDateTime.toString` (`show`) and `LocalDateTime.parse` (`parseDate`) are parameters, as are `UUID.randomUUID` and the password encoder.
- Task snapshots: an event carries a copy of the task at the moment it is published. In the source it holds the live entity, so a STATUS_CHANGED event published before the assignee step would see the new assignee.
- User copies: `assignee` and `createdBy` are copies of the user rows, not references. After `UpdateUser` changes an assignee's e-mail or first name, the model's later notifications still use the old values; the source reads the live user (`Task.java:49-55`).
- Users.UserService.DeleteUser: removes the user even when tasks still reference it. The foreign keys on `assignee_id` and `created_by_id` would most likely make the source's delete fail at commit, after the asynchronous DELETE audit record was written.
- Audit.AuditLogService.Log: whether saves fail is fixed for the life of the service, so either every record is kept or none is. The source catches each save's failure separately, so one call can lose one record and keep another; the model cannot express that.
- Tasks.TaskService.DeleteTask: does not remove attachment rows itself. The cascade is modelled on the attachment side: `FileStorageService.Live` treats an attachment whose task is gone as deleted, and its key stays in `stored`.
- Text.ParseInteger: accepts ASCII digits only, whereas Java's `parseLong` and `parseInt` also accept other Unicode decimal digits.
- Row order: queries return rows in insertion order. The database gives no order guarantee.
- `convertToDTO`, `ModelMapper` and `User.toString` are left out. The user rendering used in the UPDATE record is a parameter (`render`).
- Kafka, the mail sender and the S3 and local file systems are not called. Each send is an entry in an effect log with a "delivered" flag, and each failure is a parameter. The storage backends are reduced to the set of stored keys.
- CSV tokenising: header-case folding, quoting and trimming are left out, and a record arrives as a map from column name to cell. The batch-size progress logging has no effect and is left out.
- `StringUtils.cleanPath` is applied to the file name before it reaches the model.
- Case mapping: `toUpperCase` and `toLowerCase` are modelled on ASCII letters only.
- `getFileById` and `getFilesByTaskId` are not modelled: they are lookups with DTO conversion and no rule of their own.
- `getTaskById`, `getAllTasks` and `getAllUsers` are not modelled for the same reason.
- `FileStorage.FileStorageService.UploadFile`: the source catches only `IOException` there, so a runtime exception from the S3 client would escape unwrapped. The model wraps every storage failure.
- `Users.UserService.CreateUser` and `Users.UserService.UpdateUser` do not model the database's unique constraints beyond the `existsBy…` checks the service makes.
- Logging calls have no observable effect and are left out.

## Findings

| source | as written | input that shows it | evidently intended | confidence | as-written member | corrected member |
|---|---|---|---|---|---|---|
| src/main/java/com/taskmanagement/repository/TaskRepository.java:30 | the search term is spliced into a `LIKE` pattern unescaped, so `%` and `_` in the term act as wildcards (`TaskSpecification.java:42` builds its pattern the same way) | term "a_c" and a task titled "abc": the task is found, but "a_c" does not occur in "abc" | the lower-cased term occurs as a substring of the lower-cased title or description | not executed | Repository.SearchWildcardCounterexample | Repository.SearchTasks |

The rest of the model uses the corrected predicate `Repository.SearchMatch`, both in
`SearchTasks` and in the filter's search criterion. `Repository.SearchAgreesWithoutWildcards`
shows that the two readings agree whenever the term contains no `%` or `_`.
