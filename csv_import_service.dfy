/** `CsvImportService`: turns the records of an uploaded CSV file into task
    DTOs and creates one task per record, skipping the records that fail,
    then writes one BULK_IMPORT audit record. A record is the map from
    (header-case-normalised) column name to its trimmed cell, as the CSV
    parser hands it over. */
module CsvImport {
  import opened Wrappers
  import opened Text
  import opened Domain
  import opened Events
  import opened Audit
  import opened Tasks

  type CsvRecord = map<string, string>

  const EmptyFileMessage: string := "Cannot import from empty CSV file"
  const ImportFailedPrefix: string := "Failed to import CSV file: "
  const TooManyRowsPrefix: string := "CSV file exceeds maximum allowed rows: "

  /** `getOptionalField`: the cell, or null when the column is not mapped. */
  function GetOptionalField(rec: CsvRecord, name: string): (r: Option<string>)
    ensures r.None? <==> name !in rec
    ensures r.Some? ==> r.value == rec[name]
  {
    if name in rec then Some(rec[name]) else None
  }

  /** The cell parsed by a conversion that may fail; a null or empty cell, or
      one the conversion rejects, leaves the field null. */
  function Lenient<T>(cell: Option<string>, parse: string -> Option<T>): (r: Option<T>)
    ensures cell.None? || cell.value == "" ==> r.None?
    ensures cell.Some? && cell.value != "" ==> r == parse(cell.value)
  {
    if cell.None? || cell.value == "" then None else parse(cell.value)
  }

  /** `valueOf(status.toUpperCase())`, or TODO for a null cell. */
  function StatusCell(cell: Option<string>): (r: Result<TaskStatus, Error>)
    ensures cell.None? ==> r == Ok(Todo)
    ensures cell.Some? && r.Ok? ==> StatusName(r.value) == ToUpper(cell.value)
    ensures cell.Some? && r.Err? ==> ParseStatus(ToUpper(cell.value)).None?
  {
    if cell.None? then Ok(Todo)
    else
      var name := ToUpper(cell.value);
      match ParseStatus(name)
      case Some(s) => Ok(s)
      case None => Err(IllegalArgument("No enum constant com.taskmanagement.model.Task.TaskStatus." + name))
  }

  /** `valueOf(priority.toUpperCase())`, or MEDIUM for a null cell. */
  function PriorityCell(cell: Option<string>): (r: Result<TaskPriority, Error>)
    ensures cell.None? ==> r == Ok(Medium)
    ensures cell.Some? && r.Ok? ==> PriorityName(r.value) == ToUpper(cell.value)
    ensures cell.Some? && r.Err? ==> ParsePriority(ToUpper(cell.value)).None?
  {
    if cell.None? then Ok(Medium)
    else
      var name := ToUpper(cell.value);
      match ParsePriority(name)
      case Some(p) => Ok(p)
      case None => Err(IllegalArgument("No enum constant com.taskmanagement.model.Task.TaskPriority." + name))
  }

  /** `parseTaskFromCsvRecord`. `parseDate` is `LocalDateTime.parse` with the
      "yyyy-MM-dd HH:mm:ss" pattern. An unmapped title column, or a status or
      priority cell that names no constant, fails the record; the other
      optional cells never do. */
  function ParseTaskFromCsvRecord(rec: CsvRecord, parseDate: string -> Option<DateTime>): (r: Result<TaskDto, Error>)
    ensures r.Ok? <==>
              && "title" in rec
              && StatusCell(GetOptionalField(rec, "status")).Ok?
              && PriorityCell(GetOptionalField(rec, "priority")).Ok?
    ensures "title" !in rec ==> r == Err(IllegalArgument("Mapping for title not found"))
    ensures r.Ok? ==>
              && r.value.title == Some(rec["title"])
              && r.value.description == GetOptionalField(rec, "description")
              && r.value.status == Some(StatusCell(GetOptionalField(rec, "status")).value)
              && r.value.priority == Some(PriorityCell(GetOptionalField(rec, "priority")).value)
              && r.value.dueDate == Lenient(GetOptionalField(rec, "due_date"), parseDate)
              && r.value.assigneeId == Lenient(GetOptionalField(rec, "assignee_id"), ParseLong)
              && r.value.estimatedHours == Lenient(GetOptionalField(rec, "estimated_hours"), ParseInt)
              && r.value.tags == GetOptionalField(rec, "tags")
              && r.value.createdById.None? && r.value.actualHours.None?
  {
    if "title" !in rec then Err(IllegalArgument("Mapping for title not found"))
    else
      var status := StatusCell(GetOptionalField(rec, "status"));
      if status.Err? then Err(status.error)
      else
        var priority := PriorityCell(GetOptionalField(rec, "priority"));
        if priority.Err? then Err(priority.error)
        else
          Ok(TaskDto(
            Some(rec["title"]),
            GetOptionalField(rec, "description"),
            Some(status.value),
            Some(priority.value),
            Lenient(GetOptionalField(rec, "due_date"), parseDate),
            Lenient(GetOptionalField(rec, "assignee_id"), ParseLong),
            None,
            Lenient(GetOptionalField(rec, "estimated_hours"), ParseInt),
            None,
            GetOptionalField(rec, "tags")))
  }

  lemma UpperIdempotent(s: string)
    ensures ToUpper(ToUpper(s)) == ToUpper(s)
  {
  }

  /** The status and priority cells are read case-insensitively. */
  lemma EnumCellsIgnoreCase(v: string)
    ensures StatusCell(Some(v)) == StatusCell(Some(ToUpper(v)))
    ensures PriorityCell(Some(v)) == PriorityCell(Some(ToUpper(v)))
  {
    UpperIdempotent(v);
  }

  /** The names the enums print are read back as the same constants. */
  lemma EnumCellsReadNames(s: TaskStatus, p: TaskPriority)
    ensures StatusCell(Some(StatusName(s))) == Ok(s)
    ensures PriorityCell(Some(PriorityName(p))) == Ok(p)
  {
    StatusNameRoundTrip(s);
    PriorityNameRoundTrip(p);
    UpperOfUpperName(StatusName(s));
    UpperOfUpperName(PriorityName(p));
  }

  /** Enum names are already upper case. */
  lemma UpperOfUpperName(name: string)
    requires forall i :: 0 <= i < |name| ==> 'A' <= name[i] <= 'Z' || name[i] == '_'
    ensures ToUpper(name) == name
  {
  }

  /** An empty status or priority cell is not null: it names no constant and fails the record. */
  lemma EmptyEnumCellFailsRecord(rec: CsvRecord, parseDate: string -> Option<DateTime>)
    requires ("status" in rec && rec["status"] == "") || ("priority" in rec && rec["priority"] == "")
    ensures ParseTaskFromCsvRecord(rec, parseDate).Err?
  {
    assert ToUpper("") == "";
  }

  /** Whatever the due date, assignee id or estimated hours cells hold, they
      do not decide whether the record parses. */
  lemma LenientCellsNeverFail(rec: CsvRecord, parseDate: string -> Option<DateTime>, column: string, cell: string)
    requires column in {"due_date", "assignee_id", "estimated_hours"}
    ensures ParseTaskFromCsvRecord(rec[column := cell], parseDate).Ok? == ParseTaskFromCsvRecord(rec, parseDate).Ok?
  {
    assert GetOptionalField(rec[column := cell], "status") == GetOptionalField(rec, "status");
    assert GetOptionalField(rec[column := cell], "priority") == GetOptionalField(rec, "priority");
  }

  /** One record through `parseTaskFromCsvRecord` and then `createTask`. */
  function CreateFromRecord(nextId: TaskId, rec: CsvRecord, users: map<UserId, User>,
                            parseDate: string -> Option<DateTime>): Result<Task, Error>
  {
    var dto := ParseTaskFromCsvRecord(rec, parseDate);
    if dto.Ok? then Creation(nextId, dto.value, users) else Err(dto.error)
  }

  /** The tasks an import creates, in file order, when the first created task
      gets id `nextId`: a record that fails to parse, or whose creation
      fails, is skipped. The user table does not change during an import. */
  function Imports(nextId: TaskId, recs: seq<CsvRecord>, users: map<UserId, User>,
                   parseDate: string -> Option<DateTime>): seq<Task>
    decreases |recs|
  {
    if recs == [] then []
    else
      var created := CreateFromRecord(nextId, recs[0], users, parseDate);
      if created.Ok? then [created.value] + Imports(nextId + 1, recs[1..], users, parseDate)
      else Imports(nextId, recs[1..], users, parseDate)
  }

  /** Ids of a sequence of tasks. */
  function IdsOf(ts: seq<Task>): (r: seq<TaskId>)
    ensures |r| == |ts| && forall k :: 0 <= k < |ts| ==> r[k] == ts[k].id
  {
    seq(|ts|, k requires 0 <= k < |ts| => ts[k].id)
  }

  /** The CREATE records for the created tasks, in order. */
  function CreateRecords(ts: seq<Task>): (r: seq<AuditLog>)
    ensures |r| == |ts| && forall k :: 0 <= k < |ts| ==> r[k] == CreateRecord(ts[k])
  {
    seq(|ts|, k requires 0 <= k < |ts| => CreateRecord(ts[k]))
  }

  /** The ASSIGNED events for the created tasks, in order. */
  function AllCreateEvents(ts: seq<Task>): seq<TaskEvent> {
    if ts == [] then [] else AllCreateEvents(ts[..|ts| - 1]) + CreateEvents(ts[|ts| - 1])
  }

  /** The audit record closing an import of `n` tasks. */
  function BulkRecord(n: nat): AuditLog {
    AuditLog("TASK", 0, BulkImport, "SYSTEM", None, Some(NatToString(n)),
             "Bulk import completed: " + NatToString(n) + " tasks imported")
  }

  /** The loop's account of the records still to come: the tasks created so
      far, followed by what the remaining records create, are the whole
      import. One more record keeps it. */
  lemma ImportsProgress(imported: seq<Task>, next: seq<Task>, n: TaskId, n': TaskId, nextId0: TaskId,
                        recs: seq<CsvRecord>, i: int, users: map<UserId, User>,
                        parseDate: string -> Option<DateTime>)
    requires 0 <= i < |recs|
    requires imported + Imports(n, recs[i..], users, parseDate) == Imports(nextId0, recs, users, parseDate)
    requires var c := CreateFromRecord(n, recs[i], users, parseDate);
             next == imported + (if c.Ok? then [c.value] else []) && n' == n + (if c.Ok? then 1 else 0)
    ensures next + Imports(n', recs[i + 1..], users, parseDate) == Imports(nextId0, recs, users, parseDate)
  {
    assert recs[i..][0] == recs[i] && recs[i..][1..] == recs[i + 1..];
  }

  /** Whether a record fails does not depend on the id it would receive. */
  lemma RecordFailureIgnoresId(a: TaskId, b: TaskId, rec: CsvRecord, users: map<UserId, User>,
                               parseDate: string -> Option<DateTime>)
    ensures CreateFromRecord(a, rec, users, parseDate).Ok? == CreateFromRecord(b, rec, users, parseDate).Ok?
  {
    var dto := ParseTaskFromCsvRecord(rec, parseDate);
    if dto.Ok? {
      CreateOutcome(a, dto.value, users);
      CreateOutcome(b, dto.value, users);
    }
  }

  /** A record that fails, to parse or to create, is skipped and the rest
      import as if it were not in the file. */
  lemma {:induction false} FailedRecordSkipped(n: TaskId, recs: seq<CsvRecord>, k: int, users: map<UserId, User>,
                                               parseDate: string -> Option<DateTime>)
    requires 0 <= k < |recs|
    requires CreateFromRecord(n, recs[k], users, parseDate).Err?
    decreases k
    ensures Imports(n, recs, users, parseDate) == Imports(n, recs[..k] + recs[k + 1..], users, parseDate)
  {
    var rest := recs[..k] + recs[k + 1..];
    if k == 0 {
      assert rest == recs[1..];
    } else {
      assert rest[0] == recs[0];
      assert rest[1..] == recs[1..][..k - 1] + recs[1..][k..];
      assert recs[1..][k - 1] == recs[k];
      if CreateFromRecord(n, recs[0], users, parseDate).Ok? {
        RecordFailureIgnoresId(n, n + 1, recs[k], users, parseDate);
        FailedRecordSkipped(n + 1, recs[1..], k - 1, users, parseDate);
      } else {
        FailedRecordSkipped(n, recs[1..], k - 1, users, parseDate);
      }
    }
  }

  /** At most one task per record, and the created tasks take consecutive
      ids from `nextId` on. */
  lemma {:induction false} ImportsNumbering(nextId: TaskId, recs: seq<CsvRecord>, users: map<UserId, User>,
                                            parseDate: string -> Option<DateTime>)
    decreases |recs|
    ensures |Imports(nextId, recs, users, parseDate)| <= |recs|
    ensures forall k :: 0 <= k < |Imports(nextId, recs, users, parseDate)| ==>
              Imports(nextId, recs, users, parseDate)[k].id == nextId + k
  {
    if recs != [] {
      var dto := ParseTaskFromCsvRecord(recs[0], parseDate);
      var created := CreateFromRecord(nextId, recs[0], users, parseDate);
      if created.Ok? {
        ImportsNumbering(nextId + 1, recs[1..], users, parseDate);
        CreateOutcome(nextId, dto.value, users);
      } else {
        ImportsNumbering(nextId, recs[1..], users, parseDate);
      }
    }
  }

  /** When every record has a title, no assignee id and valid enum cells,
      every record becomes a task. */
  lemma {:induction false} CleanFileImportsEveryRow(nextId: TaskId, recs: seq<CsvRecord>, users: map<UserId, User>,
                                                    parseDate: string -> Option<DateTime>)
    requires forall k :: 0 <= k < |recs| ==>
               && ParseTaskFromCsvRecord(recs[k], parseDate).Ok?
               && "assignee_id" !in recs[k]
    decreases |recs|
    ensures |Imports(nextId, recs, users, parseDate)| == |recs|
  {
    if recs != [] {
      var dto := ParseTaskFromCsvRecord(recs[0], parseDate);
      CreateOutcome(nextId, dto.value, users);
      CleanFileImportsEveryRow(nextId + 1, recs[1..], users, parseDate);
    }
  }

  class CsvImportService {
    const tasks: TaskService
    const audit: AuditLogService
    /** `app.csv.max-rows`. */
    const maxRows: int

    /** Both services write to the one audit log bean. */
    ghost predicate Valid()
      reads this, tasks
    {
      tasks.Valid() && audit == tasks.audit
    }

    constructor (tasks: TaskService, maxRows: int)
      ensures this.tasks == tasks && audit == tasks.audit && this.maxRows == maxRows
    {
      this.tasks := tasks;
      this.audit := tasks.audit;
      this.maxRows := maxRows;
    }

    /** `importTasksFromCsv`. An empty file is refused outright; a file with
        more records than `maxRows` fails (wrapped by the outer handler)
        before any task is created. Otherwise every record is created in
        order, failures skipped, and the created tasks are returned. */
    method ImportTasksFromCsv(fileEmpty: bool, records: seq<CsvRecord>, parseDate: string -> Option<DateTime>)
      returns (r: Result<seq<Task>, Error>)
      requires Valid()
      modifies tasks, audit`records, tasks.events
      ensures Valid()
      ensures fileEmpty ==> r == Err(FileStorageError(EmptyFileMessage))
      ensures !fileEmpty && |records| > maxRows ==>
                r == Err(FileStorageError(ImportFailedPrefix + TooManyRowsPrefix + IntToString(maxRows)))
      ensures r.Err? ==>
                && tasks.store == old(tasks.store) && tasks.ids == old(tasks.ids) && tasks.nextId == old(tasks.nextId)
                && audit.records == old(audit.records) && tasks.events.published == old(tasks.events.published)
      ensures !fileEmpty && |records| <= maxRows ==>
                && r == Ok(Imports(old(tasks.nextId), records, tasks.users.users, parseDate))
                && tasks.ids == old(tasks.ids) + IdsOf(r.value)
                && (forall id :: id in old(tasks.store) ==> id in tasks.store && tasks.store[id] == old(tasks.store)[id])
                && (forall t :: t in r.value ==> t.id in tasks.store && tasks.store[t.id] == t)
                && audit.records == old(audit.records) + audit.Kept(CreateRecords(r.value) + [BulkRecord(|r.value|)])
                && tasks.events.published == old(tasks.events.published) + AllCreateEvents(r.value)
    {
      if fileEmpty {
        return Err(FileStorageError(EmptyFileMessage));
      }
      if |records| > maxRows {
        return Err(FileStorageError(ImportFailedPrefix + TooManyRowsPrefix + IntToString(maxRows)));
      }
      var imported := ImportAll(records, parseDate);
      assert Accounted(imported, old(tasks.store), old(tasks.ids), old(audit.records), old(tasks.events.published));
      audit.Log("TASK", 0, BulkImport, "SYSTEM", None, Some(NatToString(|imported|)),
                "Bulk import completed: " + NatToString(|imported|) + " tasks imported");
      KeptAppend(audit, CreateRecords(imported), [BulkRecord(|imported|)]);
      r := Ok(imported);
    }

    /** The state holds `imported` on top of a starting state. */
    ghost predicate Accounted(imported: seq<Task>, store0: map<TaskId, Task>, ids0: seq<TaskId>,
                              records0: seq<AuditLog>, events0: seq<TaskEvent>)
      reads this, tasks, audit, tasks.events
    {
      ImportedOnTop(imported, tasks.store, tasks.ids, audit.records, tasks.events.published, audit.failing,
                    store0, ids0, records0, events0)
    }

    /** The record loop: parse, create, keep the created task; a record that
        fails either step is skipped. */
    method ImportAll(records: seq<CsvRecord>, parseDate: string -> Option<DateTime>) returns (imported: seq<Task>)
      requires Valid()
      modifies tasks, audit`records, tasks.events
      ensures Valid()
      ensures imported == Imports(old(tasks.nextId), records, tasks.users.users, parseDate)
      ensures Accounted(imported, old(tasks.store), old(tasks.ids), old(audit.records), old(tasks.events.published))
    {
      ghost var users := tasks.users.users;
      ghost var nextId0 := tasks.nextId;
      imported := [];
      assert records[0..] == records;
      assert IdsOf([]) == [] && CreateRecords([]) == [];
      var i := 0;
      while i < |records|
        invariant 0 <= i <= |records|
        invariant Valid()
        invariant tasks.users.users == users
        invariant imported + Imports(tasks.nextId, records[i..], users, parseDate) == Imports(nextId0, records, users, parseDate)
        invariant Accounted(imported, old(tasks.store), old(tasks.ids), old(audit.records), old(tasks.events.published))
      {
        imported := ImportOne(records, i, parseDate, imported, nextId0,
                              old(tasks.store), old(tasks.ids), old(audit.records), old(tasks.events.published));
        i := i + 1;
      }
      assert records[i..] == [];
    }

    /** One iteration of the loop: record `i` is parsed and created, and a
        created task joins `imported`; a record that fails creates nothing.
        Either way the created tasks followed by what the later records
        create are still the whole import. */
    method ImportOne(records: seq<CsvRecord>, i: int, parseDate: string -> Option<DateTime>, imported: seq<Task>,
                     ghost nextId0: TaskId, ghost store0: map<TaskId, Task>, ghost ids0: seq<TaskId>,
                     ghost records0: seq<AuditLog>, ghost events0: seq<TaskEvent>)
      returns (next: seq<Task>)
      requires 0 <= i < |records|
      requires Valid() && Accounted(imported, store0, ids0, records0, events0)
      requires imported + Imports(tasks.nextId, records[i..], tasks.users.users, parseDate)
               == Imports(nextId0, records, tasks.users.users, parseDate)
      modifies tasks, audit`records, tasks.events
      ensures Valid() && Accounted(next, store0, ids0, records0, events0)
      ensures next + Imports(tasks.nextId, records[i + 1..], tasks.users.users, parseDate)
              == Imports(nextId0, records, tasks.users.users, parseDate)
    {
      ghost var n := tasks.nextId;
      ghost var users := tasks.users.users;
      var rec := records[i];
      var dto := ParseTaskFromCsvRecord(rec, parseDate);
      if dto.Err? {
        ImportsProgress(imported, imported, n, n, nextId0, records, i, users, parseDate);
        return imported;
      }
      ghost var before := audit.records;
      ghost var store1 := tasks.store;
      var created := tasks.CreateTask(dto.value);
      if created.Err? {
        ImportsProgress(imported, imported, n, n, nextId0, records, i, users, parseDate);
        return imported;
      }
      var t := created.value;
      ImportedOnTopStep(imported, t, store1, old(tasks.ids), before, old(tasks.events.published), audit.failing,
                        store0, ids0, records0, events0);
      next := imported + [t];
      ImportsProgress(imported, next, n, tasks.nextId, nextId0, records, i, users, parseDate);
    }
  }

  /** The state (rows, ids, audit records, events) holds the tasks
      `imported` on top of a starting state: their ids after the old ids,
      their rows beside the old rows, their CREATE records (unless the audit
      log is failing) and their ASSIGNED events after the old ones. */
  ghost predicate ImportedOnTop(imported: seq<Task>, store: map<TaskId, Task>, ids: seq<TaskId>,
                                records: seq<AuditLog>, events: seq<TaskEvent>, failing: bool,
                                store0: map<TaskId, Task>, ids0: seq<TaskId>,
                                records0: seq<AuditLog>, events0: seq<TaskEvent>)
  {
    && ids == ids0 + IdsOf(imported)
    && (forall id :: id in store0 ==> id in store && store[id] == store0[id])
    && (forall t :: t in imported ==> t.id in store && store[t.id] == t)
    && records == records0 + (if failing then [] else CreateRecords(imported))
    && events == events0 + AllCreateEvents(imported)
  }

  /** Creating one more task with a fresh id keeps the account. */
  lemma ImportedOnTopStep(imported: seq<Task>, t: Task, store: map<TaskId, Task>, ids: seq<TaskId>,
                          records: seq<AuditLog>, events: seq<TaskEvent>, failing: bool,
                          store0: map<TaskId, Task>, ids0: seq<TaskId>,
                          records0: seq<AuditLog>, events0: seq<TaskEvent>)
    requires ImportedOnTop(imported, store, ids, records, events, failing, store0, ids0, records0, events0)
    requires t.id !in store
    ensures ImportedOnTop(imported + [t], store[t.id := t], ids + [t.id],
                          records + (if failing then [] else [CreateRecord(t)]), events + CreateEvents(t), failing,
                          store0, ids0, records0, events0)
  {
    RowsOnTopStep(imported, t, store, store0);
    LogsOnTopStep(imported, t, ids, records, events, failing, ids0, records0, events0);
  }

  /** The row part of `ImportedOnTopStep`. */
  lemma RowsOnTopStep(imported: seq<Task>, t: Task, store: map<TaskId, Task>, store0: map<TaskId, Task>)
    requires forall id :: id in store0 ==> id in store && store[id] == store0[id]
    requires forall u :: u in imported ==> u.id in store && store[u.id] == u
    requires t.id !in store
    ensures forall id :: id in store0 ==> id in store[t.id := t] && store[t.id := t][id] == store0[id]
    ensures forall u :: u in imported + [t] ==> u.id in store[t.id := t] && store[t.id := t][u.id] == u
  {
    forall u | u in imported + [t]
      ensures u.id in store[t.id := t] && store[t.id := t][u.id] == u
    {
      if u in imported {
        assert u.id in store;
      }
    }
  }

  /** The id, record and event part of `ImportedOnTopStep`. */
  lemma LogsOnTopStep(imported: seq<Task>, t: Task, ids: seq<TaskId>,
                      records: seq<AuditLog>, events: seq<TaskEvent>, failing: bool,
                      ids0: seq<TaskId>, records0: seq<AuditLog>, events0: seq<TaskEvent>)
    requires ids == ids0 + IdsOf(imported)
    requires records == records0 + (if failing then [] else CreateRecords(imported))
    requires events == events0 + AllCreateEvents(imported)
    ensures ids + [t.id] == ids0 + IdsOf(imported + [t])
    ensures records + (if failing then [] else [CreateRecord(t)])
            == records0 + (if failing then [] else CreateRecords(imported + [t]))
    ensures events + CreateEvents(t) == events0 + AllCreateEvents(imported + [t])
  {
    ImportStep(imported, t);
    if !failing {
      assert records + [CreateRecord(t)] == records0 + (CreateRecords(imported) + [CreateRecord(t)]);
    }
    assert events + CreateEvents(t) == events0 + (AllCreateEvents(imported) + CreateEvents(t));
    assert ids + [t.id] == ids0 + (IdsOf(imported) + [t.id]);
  }

  /** Appending a created task extends the id, record and event sequences by its own. */
  lemma ImportStep(imported: seq<Task>, t: Task)
    ensures IdsOf(imported + [t]) == IdsOf(imported) + [t.id]
    ensures CreateRecords(imported + [t]) == CreateRecords(imported) + [CreateRecord(t)]
    ensures AllCreateEvents(imported + [t]) == AllCreateEvents(imported) + CreateEvents(t)
  {
    assert (imported + [t])[..|imported|] == imported;
  }
}
