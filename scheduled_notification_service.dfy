/** `ScheduledNotificationService`: the periodic reminder job. It selects the
    tasks due within the configured number of hours, then for each one
    publishes a REMINDER event and marks its reminder as sent. */
module Scheduler {
  import opened Wrappers
  import opened Domain
  import opened Events
  import opened Repository
  import opened Tasks

  /** The reminder threshold: now plus the configured hours. */
  function Threshold(now: DateTime, hoursBeforeDue: int): (r: DateTime)
    ensures r - now == hoursBeforeDue * SecondsPerHour
  {
    PlusHours(now, hoursBeforeDue)
  }

  /** The reminder window: an open, not yet reminded task with a due date is
      selected by the run at `now` exactly when it falls due no later than
      `hoursBeforeDue` hours from now; overdue tasks are included. */
  lemma ReminderWindow(ids: seq<TaskId>, store: map<TaskId, Task>, now: DateTime, hoursBeforeDue: int, t: Task)
    requires WellFormed(ids, store)
    requires t.id in store && store[t.id] == t
    requires t.dueDate.Some? && !t.reminderSent && t.status != Completed && t.status != Cancelled
    ensures var selected := FindTasksNeedingReminder(RowsOf(ids, store), Threshold(now, hoursBeforeDue));
      t in selected <==> t.dueDate.value <= now + hoursBeforeDue * SecondsPerHour
  {
    RowsMembership(ids, store, t);
  }

  /** One iteration goes through (event published and task marked) unless
      publishing or marking that task throws. */
  predicate Succeeds(t: Task, publishFails: set<TaskId>, markFails: set<TaskId>) {
    t.id !in publishFails && t.id !in markFails
  }

  /** The ids the job marks: the tasks whose publish and mark both succeed. */
  function MarkedIds(ts: seq<Task>, publishFails: set<TaskId>, markFails: set<TaskId>): set<TaskId> {
    if ts == [] then {}
    else
      MarkedIds(ts[..|ts| - 1], publishFails, markFails)
      + (if Succeeds(ts[|ts| - 1], publishFails, markFails) then {ts[|ts| - 1].id} else {})
  }

  /** The REMINDER events the job publishes, in selection order: one per task
      whose publish does not throw. */
  function ReminderEvents(ts: seq<Task>, publishFails: set<TaskId>): seq<TaskEvent> {
    if ts == [] then []
    else
      ReminderEvents(ts[..|ts| - 1], publishFails)
      + (if ts[|ts| - 1].id in publishFails then [] else [TaskEvent(ts[|ts| - 1], Reminder)])
  }

  /** The store with the reminder flag set on every id in `marked`. */
  function MarkEach(store: map<TaskId, Task>, marked: set<TaskId>): (r: map<TaskId, Task>)
    ensures r.Keys == store.Keys
    ensures forall id :: id in store && id in marked ==> r[id] == store[id].(reminderSent := true)
    ensures forall id :: id in store && id !in marked ==> r[id] == store[id]
  {
    map id | id in store :: if id in marked then store[id].(reminderSent := true) else store[id]
  }

  lemma {:induction false} MarkedIdsMembership(ts: seq<Task>, publishFails: set<TaskId>, markFails: set<TaskId>, id: TaskId)
    ensures id in MarkedIds(ts, publishFails, markFails) <==>
              exists k :: 0 <= k < |ts| && ts[k].id == id && Succeeds(ts[k], publishFails, markFails)
  {
    if ts != [] {
      var init := ts[..|ts| - 1];
      MarkedIdsMembership(init, publishFails, markFails, id);
      if id in MarkedIds(init, publishFails, markFails) {
        var k :| 0 <= k < |init| && init[k].id == id && Succeeds(init[k], publishFails, markFails);
        assert ts[k] == init[k];
      }
      if exists k :: 0 <= k < |ts| && ts[k].id == id && Succeeds(ts[k], publishFails, markFails) {
        var k :| 0 <= k < |ts| && ts[k].id == id && Succeeds(ts[k], publishFails, markFails);
        if k < |ts| - 1 {
          assert init[k] == ts[k];
        }
      }
    }
  }

  /** With no publish failure, one REMINDER event per selected task, in selection order. */
  lemma {:induction false} RemindersFollowSelection(ts: seq<Task>)
    ensures |ReminderEvents(ts, {})| == |ts|
    ensures forall k :: 0 <= k < |ts| ==> ReminderEvents(ts, {})[k] == TaskEvent(ts[k], Reminder)
  {
    if ts != [] {
      RemindersFollowSelection(ts[..|ts| - 1]);
    }
  }

  /** Marking one more id is one more `markReminderSent`. */
  lemma MarkEachStep(store: map<TaskId, Task>, marked: set<TaskId>, id: TaskId)
    requires id in store
    ensures MarkEach(store, marked + {id}) == MarkSent(MarkEach(store, marked), id)
  {
  }

  /** The effect of the loop over one more selected task. */
  lemma RemindStep(store: map<TaskId, Task>, found: seq<Task>, i: int, publishFails: set<TaskId>, markFails: set<TaskId>)
    requires 0 <= i < |found| && found[i].id in store
    ensures var before := MarkEach(store, MarkedIds(found[..i], publishFails, markFails));
      MarkEach(store, MarkedIds(found[..i + 1], publishFails, markFails))
      == if Succeeds(found[i], publishFails, markFails) then MarkSent(before, found[i].id) else before
    ensures ReminderEvents(found[..i + 1], publishFails)
            == ReminderEvents(found[..i], publishFails) + if found[i].id in publishFails then [] else [TaskEvent(found[i], Reminder)]
  {
    assert found[..i + 1][..i] == found[..i];
    if Succeeds(found[i], publishFails, markFails) {
      MarkEachStep(store, MarkedIds(found[..i], publishFails, markFails), found[i].id);
    }
  }

  /** Marking keeps the table well formed. */
  lemma MarkEachWellFormed(ids: seq<TaskId>, store: map<TaskId, Task>, marked: set<TaskId>)
    requires WellFormed(ids, store)
    ensures WellFormed(ids, MarkEach(store, marked))
  {
  }

  /** After a run in which no task failed, every selected task carries the
      reminder flag, so a run with the same threshold selects nothing. */
  lemma RerunSelectsNothing(ids: seq<TaskId>, store: map<TaskId, Task>, threshold: DateTime)
    requires WellFormed(ids, store)
    ensures var found := FindTasksNeedingReminder(RowsOf(ids, store), threshold);
      var after := MarkEach(store, MarkedIds(found, {}, {}));
      FindTasksNeedingReminder(RowsOf(ids, after), threshold) == []
  {
    var found := FindTasksNeedingReminder(RowsOf(ids, store), threshold);
    var marked := MarkedIds(found, {}, {});
    var after := MarkEach(store, marked);
    MarkEachWellFormed(ids, store, marked);
    var again := FindTasksNeedingReminder(RowsOf(ids, after), threshold);
    if again != [] {
      var u := again[0];
      assert u in again;
      RowsMembership(ids, after, u);
      var id := u.id;
      if id in marked {
        assert false;
      } else {
        assert u == store[id];
        RowsMembership(ids, store, u);
        assert u in found;
        var k :| 0 <= k < |found| && found[k] == u;
        MarkedIdsMembership(found, {}, {}, id);
        assert false;
      }
    }
  }

  /** A selected task whose publish or mark threw keeps its flag unset and is
      selected again by the next run with the same threshold. */
  lemma FailedReminderRetried(ids: seq<TaskId>, store: map<TaskId, Task>, threshold: DateTime,
                              publishFails: set<TaskId>, markFails: set<TaskId>, t: Task)
    requires WellFormed(ids, store)
    requires t in FindTasksNeedingReminder(RowsOf(ids, store), threshold)
    requires t.id in publishFails || t.id in markFails
    ensures var found := FindTasksNeedingReminder(RowsOf(ids, store), threshold);
      var after := MarkEach(store, MarkedIds(found, publishFails, markFails));
      t in FindTasksNeedingReminder(RowsOf(ids, after), threshold)
  {
    var found := FindTasksNeedingReminder(RowsOf(ids, store), threshold);
    var marked := MarkedIds(found, publishFails, markFails);
    var after := MarkEach(store, marked);
    RowsMembership(ids, store, t);
    MarkedIdsMembership(found, publishFails, markFails, t.id);
    if t.id in marked {
      assert false;
    }
    MarkEachWellFormed(ids, store, marked);
    RowsMembership(ids, after, t);
  }

  class ScheduledNotificationService {
    const tasks: TaskService
    /** `app.notification.reminder.hours-before-due`. */
    const hoursBeforeDue: int

    constructor (tasks: TaskService, hoursBeforeDue: int)
      ensures this.tasks == tasks && this.hoursBeforeDue == hoursBeforeDue
    {
      this.tasks := tasks;
      this.hoursBeforeDue := hoursBeforeDue;
    }

    /** `sendTaskReminders`. A failing query (`queryFails`) is caught and the
        job does nothing. Otherwise it walks the selected tasks in order:
        publishing REMINDER, then marking the task; a task in `publishFails`
        throws at the publish (and is not marked), one in `markFails` at the
        mark, and either way the loop goes on with the next task. */
    method SendTaskReminders(now: DateTime, queryFails: bool, publishFails: set<TaskId>, markFails: set<TaskId>)
      requires tasks.Valid()
      modifies tasks`store, tasks.events
      ensures tasks.Valid()
      ensures queryFails ==> tasks.store == old(tasks.store) && tasks.events.published == old(tasks.events.published)
      ensures !queryFails ==>
                var found := old(tasks.GetTasksNeedingReminder(Threshold(now, hoursBeforeDue)));
                && tasks.store == MarkEach(old(tasks.store), MarkedIds(found, publishFails, markFails))
                && tasks.events.published == old(tasks.events.published) + ReminderEvents(found, publishFails)
    {
      if queryFails {
        return;
      }
      var found := tasks.GetTasksNeedingReminder(Threshold(now, hoursBeforeDue));
      RemindAll(found, publishFails, markFails);
    }

    /** The loop over the selected tasks, in order. */
    method RemindAll(found: seq<Task>, publishFails: set<TaskId>, markFails: set<TaskId>)
      requires tasks.Valid()
      requires forall k :: 0 <= k < |found| ==> found[k].id in tasks.store
      modifies tasks`store, tasks.events
      ensures tasks.Valid()
      ensures tasks.store == MarkEach(old(tasks.store), MarkedIds(found, publishFails, markFails))
      ensures tasks.events.published == old(tasks.events.published) + ReminderEvents(found, publishFails)
    {
      ghost var store0 := tasks.store;
      ghost var events0 := tasks.events.published;
      var i := 0;
      while i < |found|
        invariant 0 <= i <= |found|
        invariant tasks.Valid()
        invariant tasks.store.Keys == store0.Keys
        invariant tasks.store == MarkEach(store0, MarkedIds(found[..i], publishFails, markFails))
        invariant tasks.events.published == events0 + ReminderEvents(found[..i], publishFails)
      {
        var t := found[i];
        RemindStep(store0, found, i, publishFails, markFails);
        RemindOne(t, publishFails, markFails);
        i := i + 1;
      }
      assert found[..i] == found;
    }

    /** One iteration of the loop: publish REMINDER for `t`, then mark it,
        each step skipped once the one before has thrown. */
    method RemindOne(t: Task, publishFails: set<TaskId>, markFails: set<TaskId>)
      requires tasks.Valid() && t.id in tasks.store
      modifies tasks`store, tasks.events
      ensures tasks.Valid() && tasks.ids == old(tasks.ids)
      ensures tasks.store == if Succeeds(t, publishFails, markFails) then MarkSent(old(tasks.store), t.id) else old(tasks.store)
      ensures tasks.events.published ==
                old(tasks.events.published) + if t.id in publishFails then [] else [TaskEvent(t, Reminder)]
    {
      if t.id !in publishFails {
        tasks.events.PublishEvent(TaskEvent(t, Reminder));
        if t.id !in markFails {
          var _ := tasks.MarkReminderSent(t.id);
        }
      }
    }
  }
}
