/** `TaskRepository`: the derived and hand-written task queries, each a
    selection predicate over a task row, applied to the rows in table order. */
module Repository {
  import opened Wrappers
  import opened Text
  import opened Domain
  import opened Seqs
  import opened SqlLike

  /** The reminder query: due no later than the threshold, reminder not yet
      sent, and neither completed nor cancelled. A missing due date compares as
      SQL NULL, so such a task never qualifies. */
  predicate NeedsReminder(t: Task, threshold: DateTime) {
    && t.dueDate.Some? && t.dueDate.value <= threshold
    && !t.reminderSent
    && t.status != Completed && t.status != Cancelled
  }

  /** `BETWEEN` with both ends included. */
  predicate DueBetween(t: Task, start: DateTime, end: DateTime) {
    t.dueDate.Some? && start <= t.dueDate.value <= end
  }

  predicate AssignedTo(t: Task, assigneeId: UserId) {
    t.assignee.Some? && t.assignee.value.id == assigneeId
  }

  /** `LOWER(col) LIKE LOWER('%' || term || '%')` on the title or on the
      description, exactly as the query is written: a '%' or '_' inside the
      term acts as a wildcard. A null description never matches. */
  predicate SearchMatchAsWritten(t: Task, term: string) {
    var pattern := ToLower("%" + term + "%");
    || Like(pattern, ToLower(t.title))
    || (t.description.Some? && Like(pattern, ToLower(t.description.value)))
  }

  /** The intended search: the lower-cased term is a substring of the
      lower-cased title or of the lower-cased description. */
  predicate SearchMatch(t: Task, term: string) {
    || Contains(ToLower(t.title), ToLower(term))
    || (t.description.Some? && Contains(ToLower(t.description.value), ToLower(term)))
  }

  function FindByStatus(rows: seq<Task>, status: TaskStatus): (r: seq<Task>)
    ensures forall t :: t in r <==> t in rows && t.status == status
    ensures forall t :: multiset(r)[t] == if t.status == status then multiset(rows)[t] else 0
  {
    Select(rows, (t: Task) => t.status == status)
  }

  function FindByAssigneeId(rows: seq<Task>, assigneeId: UserId): (r: seq<Task>)
    ensures forall t :: t in r <==> t in rows && AssignedTo(t, assigneeId)
    ensures forall t :: multiset(r)[t] == if AssignedTo(t, assigneeId) then multiset(rows)[t] else 0
  {
    Select(rows, (t: Task) => AssignedTo(t, assigneeId))
  }

  function FindByPriority(rows: seq<Task>, priority: TaskPriority): (r: seq<Task>)
    ensures forall t :: t in r <==> t in rows && t.priority == priority
    ensures forall t :: multiset(r)[t] == if t.priority == priority then multiset(rows)[t] else 0
  {
    Select(rows, (t: Task) => t.priority == priority)
  }

  function FindByDueDateBetween(rows: seq<Task>, start: DateTime, end: DateTime): (r: seq<Task>)
    ensures forall t :: t in r <==> t in rows && t.dueDate.Some? && start <= t.dueDate.value <= end
    ensures forall t :: multiset(r)[t] == if DueBetween(t, start, end) then multiset(rows)[t] else 0
  {
    Select(rows, (t: Task) => DueBetween(t, start, end))
  }

  function FindTasksNeedingReminder(rows: seq<Task>, threshold: DateTime): (r: seq<Task>)
    ensures forall t :: t in r <==> t in rows && NeedsReminder(t, threshold)
    ensures forall t :: multiset(r)[t] == if NeedsReminder(t, threshold) then multiset(rows)[t] else 0
    ensures forall t :: t in r ==> t.dueDate.Some? && !t.reminderSent
  {
    Select(rows, (t: Task) => NeedsReminder(t, threshold))
  }

  function FindByAssigneeIdAndStatus(rows: seq<Task>, assigneeId: UserId, status: TaskStatus): (r: seq<Task>)
    ensures forall t :: t in r <==> t in rows && AssignedTo(t, assigneeId) && t.status == status
    ensures forall t :: multiset(r)[t] == if AssignedTo(t, assigneeId) && t.status == status then multiset(rows)[t] else 0
  {
    Select(rows, (t: Task) => AssignedTo(t, assigneeId) && t.status == status)
  }

  function SearchTasks(rows: seq<Task>, term: string): (r: seq<Task>)
    ensures forall t :: t in r <==> t in rows && SearchMatch(t, term)
    ensures forall t :: multiset(r)[t] == if SearchMatch(t, term) then multiset(rows)[t] else 0
  {
    Select(rows, (t: Task) => SearchMatch(t, term))
  }

  /** A task without a due date is never selected for a reminder, whatever the threshold. */
  lemma NoDueDateNoReminder(rows: seq<Task>, t: Task, threshold: DateTime)
    requires t.dueDate.None?
    ensures t !in FindTasksNeedingReminder(rows, threshold)
  {
  }

  /** Lower-casing commutes with the concatenation that builds the pattern. */
  lemma LowerPattern(term: string)
    ensures ToLower("%" + term + "%") == "%" + ToLower(term) + "%"
  {
  }

  /** Lower-casing adds no wildcard characters. */
  lemma LowerKeepsNoWildcards(term: string)
    requires NoWildcards(term)
    ensures NoWildcards(ToLower(term))
  {
  }

  /** For a term free of '%' and '_' the query as written is the intended substring search. */
  lemma SearchAgreesWithoutWildcards(t: Task, term: string)
    requires NoWildcards(term)
    ensures SearchMatchAsWritten(t, term) <==> SearchMatch(t, term)
  {
    LowerPattern(term);
    LowerKeepsNoWildcards(term);
    LikeIsContains(ToLower(term), ToLower(t.title));
    if t.description.Some? {
      LikeIsContains(ToLower(term), ToLower(t.description.value));
    }
  }

  /** The term "a_c" finds a task titled "abc" as written, although "a_c" does
      not occur in it. */
  lemma SearchWildcardCounterexample(t: Task)
    requires t.title == "abc" && t.description == None
    ensures SearchMatchAsWritten(t, "a_c")
    ensures !SearchMatch(t, "a_c")
  {
    assert ToLower("abc") == "abc";
    assert "%" + "a_c" + "%" == "%a_c%";
    assert ToLower("%a_c%") == "%a_c%";
    assert ToLower("a_c") == "a_c";
    assert Like("", "");
    assert Like("%", "");
    assert Like("c%", "c");
    assert Like("_c%", "bc");
    assert Like("a_c%", "abc");
    assert Like("%a_c%", "abc");
  }
}
