/** The task and habit endpoints: create, list, update and delete tasks; create
    and list habits, and check a habit off for a day. */
module Tasks {
  import opened Wrappers
  import opened Calendar
  import opened Seqs
  import opened Records
  import opened Database

  /** An HTTP error response. */
  datatype HttpError = HttpError(status: int, detail: string)

  const TaskNotFound: HttpError := HttpError(404, "Task not found")

  /** The request body of task creation and update. */
  datatype TaskInput = TaskInput(
    title: string,
    description: Option<string>,
    priority: string,
    dueDate: Option<Date>,
    isCompleted: bool)

  // ---------------------------------------------------------------- tasks

  /** Inserts one task for the current user; `now` is the server clock. */
  method CreateTask(db: Db, input: TaskInput, now: int) returns (task: Task)
    requires db.Valid()
    modifies db`tasks, db`nextTaskId
    ensures db.Valid()
    ensures task.id == old(db.nextTaskId) && task.userId == CurrentUser && task.createdAt == now
    ensures task.title == input.title && task.description == input.description
    ensures task.priority == input.priority && task.dueDate == input.dueDate
    ensures task.isCompleted == input.isCompleted
    ensures db.tasks == old(db.tasks) + [task]
    ensures forall t :: t in old(db.tasks) ==> t.id != task.id
  {
    task := Task(db.nextTaskId, CurrentUser, input.title, input.description,
                 input.priority, input.dueDate, input.isCompleted, now);
    db.tasks := db.tasks + [task];
    db.nextTaskId := db.nextTaskId + 1;
  }

  /** `due_date` ascending; where NULL goes depends on the database
      (`nullsFirst`: first, as SQLite does, or last, as PostgreSQL does). */
  predicate DueNoLater(nullsFirst: bool, a: Option<Date>, b: Option<Date>)
  {
    match (a, b)
    case (None, None) => true
    case (None, Some(_)) => nullsFirst
    case (Some(_), None) => !nullsFirst
    case (Some(x), Some(y)) => x <= y
  }

  /** `ORDER BY is_completed, due_date`: `a` may be listed before `b`. */
  predicate ListedNoLater(nullsFirst: bool, a: Task, b: Task)
  {
    || (!a.isCompleted && b.isCompleted)
    || (a.isCompleted == b.isCompleted && DueNoLater(nullsFirst, a.dueDate, b.dueDate))
  }

  lemma TaskOrderIsTotalPreorder(nullsFirst: bool)
    ensures TotalPreorder((a: Task, b: Task) => ListedNoLater(nullsFirst, a, b))
  {
  }

  /** `ORDER BY is_completed, due_date` applied to `tasks`. */
  function SortTasks(tasks: seq<Task>, nullsFirst: bool): (r: seq<Task>)
    ensures multiset(r) == multiset(tasks)
    ensures forall i, j :: 0 <= i < j < |r| ==> ListedNoLater(nullsFirst, r[i], r[j])
  {
    TaskOrderIsTotalPreorder(nullsFirst);
    SortBy(tasks, (a: Task, b: Task) => ListedNoLater(nullsFirst, a, b))
  }

  /** The current user's tasks, incomplete ones first, each group by due date. */
  function GetTasks(db: Db, nullsFirst: bool): (r: seq<Task>)
    reads db
    ensures forall t :: multiset(r)[t] == if t.userId == CurrentUser then multiset(db.tasks)[t] else 0
    ensures forall i, j :: 0 <= i < j < |r| && r[i].isCompleted ==> r[j].isCompleted
    ensures forall i, j :: 0 <= i < j < |r| && r[i].isCompleted == r[j].isCompleted ==>
              DueNoLater(nullsFirst, r[i].dueDate, r[j].dueDate)
  {
    var mine := (t: Task) => t.userId == CurrentUser;
    var r := SortTasks(Filter(db.tasks, mine), nullsFirst);
    assert forall t :: multiset(r)[t] == if mine(t) then multiset(db.tasks)[t] else 0 by {
      forall t ensures multiset(r)[t] == if mine(t) then multiset(db.tasks)[t] else 0 {
        FilterMultiset(db.tasks, mine, t);
      }
    }
    r
  }

  /** The five columns update_task assigns take the request's values; the id,
      the owner and the creation time stay. */
  predicate Overwrites(before: Task, after: Task, input: TaskInput)
  {
    && after.id == before.id && after.userId == before.userId && after.createdAt == before.createdAt
    && after.title == input.title && after.description == input.description
    && after.priority == input.priority && after.dueDate == input.dueDate
    && after.isCompleted == input.isCompleted
  }

  /** Overwrites the task with id `taskId`, whoever owns it, or fails with 404. */
  method UpdateTask(db: Db, taskId: int, input: TaskInput) returns (r: Result<Task, HttpError>)
    requires db.Valid()
    modifies db`tasks
    ensures db.Valid()
    ensures r.Failure? <==> forall t :: t in old(db.tasks) ==> t.id != taskId
    ensures r.Failure? ==> r.error == TaskNotFound && db.tasks == old(db.tasks)
    ensures r.Success? ==> r.value in db.tasks && r.value.id == taskId
    ensures |db.tasks| == |old(db.tasks)|
    ensures forall i :: 0 <= i < |db.tasks| ==>
              if old(db.tasks)[i].id == taskId && r.Success?
              then Overwrites(old(db.tasks)[i], db.tasks[i], input) && db.tasks[i] == r.value
              else db.tasks[i] == old(db.tasks)[i]
  {
    var found := FirstIndex(db.tasks, (t: Task) => t.id == taskId);
    if found.None? {
      return Failure(TaskNotFound);
    }
    var k := found.value;
    var task := db.tasks[k];
    task := task.(title := input.title, description := input.description, priority := input.priority,
                  dueDate := input.dueDate, isCompleted := input.isCompleted);
    db.tasks := db.tasks[k := task];
    assert db.tasks[k] == task;
    r := Success(task);
  }

  /** Removes the task with id `taskId`, whoever owns it, or fails with 404. */
  method DeleteTask(db: Db, taskId: int) returns (r: Result<(), HttpError>)
    requires db.Valid()
    modifies db`tasks
    ensures db.Valid()
    ensures r.Failure? <==> forall t :: t in old(db.tasks) ==> t.id != taskId
    ensures r.Failure? ==> r.error == TaskNotFound && db.tasks == old(db.tasks)
    ensures r.Success? ==> exists k :: 0 <= k < |old(db.tasks)| && old(db.tasks)[k].id == taskId
                                       && db.tasks == old(db.tasks)[..k] + old(db.tasks)[k + 1..]
    ensures forall t :: t in db.tasks <==> t in old(db.tasks) && t.id != taskId
  {
    var found := FirstIndex(db.tasks, (t: Task) => t.id == taskId);
    if found.None? {
      return Failure(TaskNotFound);
    }
    var k := found.value;
    var before := db.tasks;
    KeyedBelowRemove(before, (t: Task) => t.id, db.nextTaskId, k);
    db.tasks := before[..k] + before[k + 1..];
    forall t ensures t in db.tasks <==> t in before && t.id != taskId {
      RemoveAtMembership(before, k, t);
    }
    r := Success(());
  }

  // ---------------------------------------------------------------- habits

  /** Inserts one habit for the current user with a streak of 0. */
  method CreateHabit(db: Db, title: string, frequency: string) returns (habit: Habit)
    requires db.Valid()
    modifies db`habits, db`nextHabitId
    ensures db.Valid()
    ensures habit == Habit(old(db.nextHabitId), CurrentUser, title, frequency, 0)
    ensures db.habits == old(db.habits) + [habit]
    ensures forall h :: h in old(db.habits) ==> h.id != habit.id
  {
    habit := Habit(db.nextHabitId, CurrentUser, title, frequency, 0);
    db.habits := db.habits + [habit];
    db.nextHabitId := db.nextHabitId + 1;
  }

  /** The current user's habits, in table order. */
  function GetHabits(db: Db): (r: seq<Habit>)
    reads db
    ensures forall h :: multiset(r)[h] == if h.userId == CurrentUser then multiset(db.habits)[h] else 0
  {
    var mine := (h: Habit) => h.userId == CurrentUser;
    var r := Filter(db.habits, mine);
    assert forall h :: multiset(r)[h] == if mine(h) then multiset(db.habits)[h] else 0 by {
      forall h ensures multiset(r)[h] == if mine(h) then multiset(db.habits)[h] else 0 {
        FilterMultiset(db.habits, mine, h);
      }
    }
    r
  }

  /** The habit table after one more completion of habit `habitId`: that habit's
      streak goes up by one and every other row stays. */
  predicate StreakBumped(before: seq<Habit>, after: seq<Habit>, habitId: int)
  {
    && |after| == |before|
    && forall i :: 0 <= i < |after| ==>
         after[i] == if before[i].id == habitId
                     then before[i].(currentStreak := before[i].currentStreak + 1)
                     else before[i]
  }

  /** Marks habit `habitId` done on `date`. A second check on the same day
      returns the stored log and changes nothing; otherwise a completed log is
      inserted, whether or not the habit exists, and the habit's streak, if the
      habit exists, goes up by one. */
  method CheckHabit(db: Db, habitId: int, date: Date) returns (log: HabitLog)
    requires db.Valid()
    modifies db`habitLogs, db`habits, db`nextHabitLogId
    ensures db.Valid()
    ensures log.habitId == habitId && log.date == date
    ensures (exists l :: l in old(db.habitLogs) && l.habitId == habitId && l.date == date) ==>
              && log in old(db.habitLogs)
              && db.habitLogs == old(db.habitLogs) && db.habits == old(db.habits)
              && db.nextHabitLogId == old(db.nextHabitLogId)
    ensures (forall l :: l in old(db.habitLogs) ==> l.habitId != habitId || l.date != date) ==>
              && log == HabitLog(old(db.nextHabitLogId), habitId, date, true)
              && db.habitLogs == old(db.habitLogs) + [log]
              && StreakBumped(old(db.habits), db.habits, habitId)
  {
    var existing := FirstIndex(db.habitLogs, (l: HabitLog) => l.habitId == habitId && l.date == date);
    if existing.Some? {
      return db.habitLogs[existing.value];
    }
    log := HabitLog(db.nextHabitLogId, habitId, date, true);
    db.habitLogs := db.habitLogs + [log];
    db.nextHabitLogId := db.nextHabitLogId + 1;

    var found := FirstIndex(db.habits, (h: Habit) => h.id == habitId);
    if found.Some? {
      var k := found.value;
      db.habits := db.habits[k := db.habits[k].(currentStreak := db.habits[k].currentStreak + 1)];
    }
  }

  /** Checking a habit twice on one day returns the same log both times and
      adds at most one log. On a day that already has a log for the habit
      nothing changes; on a day with no log yet, one log is added and the
      streak goes up once. */
  method CheckHabitTwice(db: Db, habitId: int, date: Date) returns (first: HabitLog, second: HabitLog)
    requires db.Valid()
    modifies db`habitLogs, db`habits, db`nextHabitLogId
    ensures db.Valid()
    ensures first == second
    ensures second in db.habitLogs && second.habitId == habitId && second.date == date
    ensures |db.habitLogs| <= |old(db.habitLogs)| + 1
    ensures (exists l :: l in old(db.habitLogs) && l.habitId == habitId && l.date == date) ==>
              db.habitLogs == old(db.habitLogs) && db.habits == old(db.habits)
    ensures (forall l :: l in old(db.habitLogs) ==> l.habitId != habitId || l.date != date) ==>
              && db.habitLogs == old(db.habitLogs) + [first]
              && StreakBumped(old(db.habits), db.habits, habitId)
  {
    first := CheckHabit(db, habitId, date);
    assert first in db.habitLogs;
    second := CheckHabit(db, habitId, date);
    assert second in db.habitLogs;
    ghost var k1 :| 0 <= k1 < |db.habitLogs| && db.habitLogs[k1] == first;
    ghost var k2 :| 0 <= k2 < |db.habitLogs| && db.habitLogs[k2] == second;
    assert OneLogPerHabitDay(db.habitLogs);
    assert k1 == k2;
  }
}
