/** `TaskSpecification.filterTasks`: one predicate per non-null criterion of a
    `TaskFilterDTO`, combined with AND. */
module Specification {
  import opened Wrappers
  import opened Domain
  import opened Seqs
  import opened Repository

  datatype Criterion =
    | StatusIs(status: TaskStatus)
    | PriorityIs(priority: TaskPriority)
    | AssigneeIs(assigneeId: UserId)
    | DueOnOrAfter(from: DateTime)
    | DueOnOrBefore(to: DateTime)
    | ReminderSentIs(sent: bool)
    | Mentions(term: string)

  /** What one criterion demands of a task. A date bound on a task without a
      due date compares with SQL NULL and fails. */
  predicate Holds(c: Criterion, t: Task) {
    match c
    case StatusIs(s) => t.status == s
    case PriorityIs(p) => t.priority == p
    case AssigneeIs(a) => AssignedTo(t, a)
    case DueOnOrAfter(from) => t.dueDate.Some? && from <= t.dueDate.value
    case DueOnOrBefore(to) => t.dueDate.Some? && t.dueDate.value <= to
    case ReminderSentIs(b) => t.reminderSent == b
    case Mentions(term) => SearchMatch(t, term)
  }

  /** `if (b) predicates.add(c)`. */
  function AddIf(cs: seq<Criterion>, b: bool, c: Criterion): seq<Criterion> {
    if b then cs + [c] else cs
  }

  /** The predicates list, in the order the filter's fields are examined; a
      null or empty search term adds nothing. */
  function Criteria(f: TaskFilter): seq<Criterion> {
    var c3 := FirstCriteria(f);
    var c4 := AddIf(c3, f.dueDateFrom.Some?, DueOnOrAfter(f.dueDateFrom.GetOr(0)));
    var c5 := AddIf(c4, f.dueDateTo.Some?, DueOnOrBefore(f.dueDateTo.GetOr(0)));
    var c6 := AddIf(c5, f.reminderSent.Some?, ReminderSentIs(f.reminderSent.GetOr(false)));
    AddIf(c6, f.searchTerm.Some? && f.searchTerm.value != "", Mentions(f.searchTerm.GetOr("")))
  }

  /** The predicates for status, priority and assignee. */
  function FirstCriteria(f: TaskFilter): seq<Criterion> {
    var c1 := AddIf([], f.status.Some?, StatusIs(f.status.GetOr(Todo)));
    var c2 := AddIf(c1, f.priority.Some?, PriorityIs(f.priority.GetOr(Low)));
    AddIf(c2, f.assigneeId.Some?, AssigneeIs(f.assigneeId.GetOr(0)))
  }

  /** `criteriaBuilder.and` over a list: every criterion holds (true for an empty list). */
  predicate AllHold(cs: seq<Criterion>, t: Task) {
    cs == [] || (Holds(cs[0], t) && AllHold(cs[1..], t))
  }

  lemma {:induction false} AllHoldAppend(a: seq<Criterion>, b: seq<Criterion>, t: Task)
    ensures AllHold(a + b, t) <==> AllHold(a, t) && AllHold(b, t)
  {
    if a == [] {
      assert a + b == b;
    } else {
      assert (a + b)[1..] == a[1..] + b;
      AllHoldAppend(a[1..], b, t);
    }
  }

  /** Adding a criterion conjoins it, when it is added. */
  lemma AllHoldAddIf(cs: seq<Criterion>, b: bool, c: Criterion, t: Task)
    ensures AllHold(AddIf(cs, b, c), t) <==> AllHold(cs, t) && (b ==> Holds(c, t))
  {
    if b {
      AllHoldAppend(cs, [c], t);
      assert [c][1..] == [];
    }
  }

  predicate Matches(f: TaskFilter, t: Task) {
    AllHold(Criteria(f), t)
  }

  /** The filter read field by field: each null criterion imposes nothing. */
  predicate MatchesFieldwise(f: TaskFilter, t: Task) {
    && (f.status.None? || t.status == f.status.value)
    && (f.priority.None? || t.priority == f.priority.value)
    && (f.assigneeId.None? || AssignedTo(t, f.assigneeId.value))
    && (f.dueDateFrom.None? || (t.dueDate.Some? && f.dueDateFrom.value <= t.dueDate.value))
    && (f.dueDateTo.None? || (t.dueDate.Some? && t.dueDate.value <= f.dueDateTo.value))
    && (f.reminderSent.None? || t.reminderSent == f.reminderSent.value)
    && (f.searchTerm.None? || f.searchTerm.value == "" || SearchMatch(t, f.searchTerm.value))
  }

  const NoFilter: TaskFilter := TaskFilter(None, None, None, None, None, None, None)

  /** The conjunction of the accumulated predicates is exactly the field-by-field reading. */
  lemma MatchesIsFieldwise(f: TaskFilter, t: Task)
    ensures Matches(f, t) <==> MatchesFieldwise(f, t)
  {
    var c3 := FirstCriteria(f);
    var c4 := AddIf(c3, f.dueDateFrom.Some?, DueOnOrAfter(f.dueDateFrom.GetOr(0)));
    var c5 := AddIf(c4, f.dueDateTo.Some?, DueOnOrBefore(f.dueDateTo.GetOr(0)));
    var c6 := AddIf(c5, f.reminderSent.Some?, ReminderSentIs(f.reminderSent.GetOr(false)));
    FirstCriteriaFieldwise(f, t);
    AllHoldAddIf(c3, f.dueDateFrom.Some?, DueOnOrAfter(f.dueDateFrom.GetOr(0)), t);
    AllHoldAddIf(c4, f.dueDateTo.Some?, DueOnOrBefore(f.dueDateTo.GetOr(0)), t);
    AllHoldAddIf(c5, f.reminderSent.Some?, ReminderSentIs(f.reminderSent.GetOr(false)), t);
    AllHoldAddIf(c6, f.searchTerm.Some? && f.searchTerm.value != "", Mentions(f.searchTerm.GetOr("")), t);
  }

  lemma FirstCriteriaFieldwise(f: TaskFilter, t: Task)
    ensures AllHold(FirstCriteria(f), t) <==>
              && (f.status.None? || t.status == f.status.value)
              && (f.priority.None? || t.priority == f.priority.value)
              && (f.assigneeId.None? || AssignedTo(t, f.assigneeId.value))
  {
    var c1 := AddIf([], f.status.Some?, StatusIs(f.status.GetOr(Todo)));
    var c2 := AddIf(c1, f.priority.Some?, PriorityIs(f.priority.GetOr(Low)));
    AllHoldAddIf([], f.status.Some?, StatusIs(f.status.GetOr(Todo)), t);
    AllHoldAddIf(c1, f.priority.Some?, PriorityIs(f.priority.GetOr(Low)), t);
    AllHoldAddIf(c2, f.assigneeId.Some?, AssigneeIs(f.assigneeId.GetOr(0)), t);
  }

  /** A filter with every field null (or only an empty search term) matches every task. */
  lemma EmptyFilterMatchesAll(f: TaskFilter, t: Task)
    requires f == NoFilter || f == NoFilter.(searchTerm := Some(""))
    ensures Matches(f, t)
  {
    assert Criteria(f) == [];
  }

  /** `g` keeps every active criterion of `f` (and may add more). */
  predicate Narrows(g: TaskFilter, f: TaskFilter) {
    && (f.status.Some? ==> g.status == f.status)
    && (f.priority.Some? ==> g.priority == f.priority)
    && (f.assigneeId.Some? ==> g.assigneeId == f.assigneeId)
    && (f.dueDateFrom.Some? ==> g.dueDateFrom == f.dueDateFrom)
    && (f.dueDateTo.Some? ==> g.dueDateTo == f.dueDateTo)
    && (f.reminderSent.Some? ==> g.reminderSent == f.reminderSent)
    && (f.searchTerm.Some? && f.searchTerm.value != "" ==> g.searchTerm == f.searchTerm)
  }

  /** Adding criteria never enlarges the matched set. */
  lemma NarrowingShrinks(g: TaskFilter, f: TaskFilter, t: Task)
    requires Narrows(g, f)
    requires Matches(g, t)
    ensures Matches(f, t)
  {
    MatchesIsFieldwise(g, t);
    MatchesIsFieldwise(f, t);
  }

  /** The rows `findAll(filterTasks(f))` returns, in table order. */
  function FilterTasks(rows: seq<Task>, f: TaskFilter): (r: seq<Task>)
    ensures forall t :: t in r <==> t in rows && MatchesFieldwise(f, t)
    ensures forall t :: multiset(r)[t] == if Matches(f, t) then multiset(rows)[t] else 0
  {
    forall t ensures Matches(f, t) <==> MatchesFieldwise(f, t) {
      MatchesIsFieldwise(f, t);
    }
    Select(rows, (t: Task) => Matches(f, t))
  }
}
