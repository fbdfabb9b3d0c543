/** The dashboard summary: one read-only query across the tables, giving
    today's sleep and mood, the pending tasks and the one to do next, the habit
    streaks, the month's spend and the first goal in progress. */
module Dashboard {
  import opened Wrappers
  import opened Calendar
  import opened Seqs
  import opened Records
  import opened Database
  import opened AiEngine
  import opened Tasks

  const NoPendingTasks: string := "No pending tasks"
  const SetAGoal: string := "Set a goal"
  const TopPriority: string := "P1"
  const InProgress: string := "In Progress"

  /** The response body; `None` stands for JSON `null`. */
  datatype Summary = Summary(
    sleep: Option<real>,
    mood: Option<int>,
    pending: nat,
    nextTask: string,
    totalStreak: int,
    activeCount: nat,
    monthExpenses: real,
    topGoal: string,
    progress: real)

  /** The streak column of some habit rows. */
  function Streaks(habits: seq<Habit>): (r: seq<int>)
    ensures |r| == |habits|
    ensures forall i :: 0 <= i < |habits| ==> r[i] == habits[i].currentStreak
  {
    seq(|habits|, i requires 0 <= i < |habits| => habits[i].currentStreak)
  }

  /** The sum of the streaks of `user`'s habits, in table order: `sum(...)`
      over the rows of the habit query. */
  function TotalStreak(habits: seq<Habit>, user: int): (r: int)
    ensures r == SumInt(Streaks(Filter(habits, (h: Habit) => h.userId == user)))
    decreases |habits|
  {
    if habits == [] then 0
    else
      var n := |habits| - 1;
      var h := habits[n];
      var init := Filter(habits[..n], (h: Habit) => h.userId == user);
      assert habits == habits[..n] + [h];
      if h.userId == user then
        assert Streaks(init + [h]) == Streaks(init) + [h.currentStreak];
        TotalStreak(habits[..n], user) + h.currentStreak
      else
        TotalStreak(habits[..n], user)
  }

  /** The title of the first P1 task among `pending`, else of the first task,
      else the placeholder. */
  function NextTaskTitle(pending: seq<Task>): (title: string)
    ensures pending == [] ==> title == NoPendingTasks
    ensures forall k :: 0 <= k < |pending| && pending[k].priority == TopPriority
                        && (forall j :: 0 <= j < k ==> pending[j].priority != TopPriority)
                        ==> title == pending[k].title
    ensures (pending != [] && forall j :: 0 <= j < |pending| ==> pending[j].priority != TopPriority) ==>
              title == pending[0].title
  {
    match FirstIndex(pending, (t: Task) => t.priority == TopPriority)
    case Some(k) => pending[k].title
    case None => if pending == [] then NoPendingTasks else pending[0].title
  }

  /** The summary for the current user on `today`; `monthStart` is the first
      day of `today`'s month. */
  function DashboardSummary(db: Db, today: Date, monthStart: Date): (s: Summary)
    reads db
    ensures var todays := FirstIndex(db.healthLogs, (l: HealthLog) => l.userId == CurrentUser && l.date == today);
      && (todays.None? ==> s.sleep == Some(0.0) && s.mood == Some(0))
      && (todays.Some? ==> s.sleep == db.healthLogs[todays.value].sleepHours
                           && s.mood == db.healthLogs[todays.value].moodScore)
    ensures s.pending == |PendingTasks(db.tasks, CurrentUser)|
    ensures s.nextTask == NextTaskTitle(PendingTasks(db.tasks, CurrentUser))
    ensures s.totalStreak == TotalStreak(db.habits, CurrentUser)
    ensures s.activeCount == |GetHabits(db)|
    ensures s.monthExpenses == MonthExpenseTotal(db.transactions, CurrentUser, monthStart)
    ensures var goals := Filter(db.goals, (g: Goal) => g.userId == CurrentUser && g.status == InProgress);
      && (goals == [] ==> s.topGoal == SetAGoal && s.progress == 0.0)
      && (goals != [] ==> s.topGoal == goals[0].title && s.progress == goals[0].progress)
  {
    var logs := db.healthLogs;
    var todays := FirstIndex(logs, (l: HealthLog) => l.userId == CurrentUser && l.date == today);
    var healthLog := if todays.Some? then Some(logs[todays.value]) else None;

    var tasks := PendingTasks(db.tasks, CurrentUser);
    var habits := GetHabits(db);
    var expenses := MonthExpenseTotal(db.transactions, CurrentUser, monthStart);
    var goals := Filter(db.goals, (g: Goal) => g.userId == CurrentUser && g.status == InProgress);

    Summary(
      if healthLog.Some? then healthLog.value.sleepHours else Some(0.0),
      if healthLog.Some? then healthLog.value.moodScore else Some(0),
      |tasks|,
      NextTaskTitle(tasks),
      TotalStreak(db.habits, CurrentUser),
      |habits|,
      expenses,
      if goals != [] then goals[0].title else SetAGoal,
      if goals != [] then goals[0].progress else 0.0)
  }

  /** The active-habit count is the number of the user's habits. */
  lemma {:induction false} ActiveCountCountsUserHabits(habits: seq<Habit>, user: int)
    ensures |Filter(habits, (h: Habit) => h.userId == user)| == |set i | 0 <= i < |habits| && habits[i].userId == user|
    decreases |habits|
  {
    var p := (h: Habit) => h.userId == user;
    if habits != [] {
      var init := habits[..|habits| - 1];
      ActiveCountCountsUserHabits(init, user);
      var before := set i | 0 <= i < |init| && init[i].userId == user;
      var after := set i | 0 <= i < |habits| && habits[i].userId == user;
      if p(habits[|habits| - 1]) {
        assert after == before + {|habits| - 1};
      } else {
        assert after == before;
      }
    }
  }

  /** One more completion of habit `habitId` raises the total streak by one when
      that habit belongs to `user`, and leaves it alone otherwise. */
  lemma {:induction false} StreakBumpRaisesTotal(before: seq<Habit>, after: seq<Habit>, habitId: int, user: int)
    requires StreakBumped(before, after, habitId)
    requires forall i, j :: 0 <= i < j < |before| ==> before[i].id != before[j].id
    ensures TotalStreak(after, user)
         == TotalStreak(before, user)
            + (if exists i :: 0 <= i < |before| && before[i].id == habitId && before[i].userId == user then 1 else 0)
    decreases |before|
  {
    if before != [] {
      var n := |before| - 1;
      StreakBumpRaisesTotal(before[..n], after[..n], habitId, user);
      assert forall i :: 0 <= i < n ==> before[..n][i] == before[i];
      if exists i :: 0 <= i < n && before[i].id == habitId && before[i].userId == user {
        var i :| 0 <= i < n && before[i].id == habitId && before[i].userId == user;
        assert before[..n][i].id == habitId;
      } else if before[n].id == habitId && before[n].userId == user {
        assert !exists i :: 0 <= i < n && before[..n][i].id == habitId && before[..n][i].userId == user;
      } else {
        assert !exists i :: 0 <= i < n && before[..n][i].id == habitId && before[..n][i].userId == user;
      }
    }
  }

  /** A new habit starts at a streak of 0, so creating one leaves the total
      streak alone. */
  lemma NewHabitKeepsTotal(habits: seq<Habit>, h: Habit, user: int)
    requires h.currentStreak == 0
    ensures TotalStreak(habits + [h], user) == TotalStreak(habits, user)
  {
    assert (habits + [h])[..|habits|] == habits;
  }

  /** The dashboard's month spend is the total the insight engine judges: the
      engine's spend message appears exactly when the dashboard shows more than
      2000, and the backlog message exactly when it shows more than five
      pending tasks. */
  lemma DashboardAgreesWithInsights(db: Db, today: Date, monthStart: Date)
    ensures var s := DashboardSummary(db, today, monthStart);
      var insights := WeeklyInsights(db.healthLogs, db.transactions, db.tasks, CurrentUser, monthStart);
      && (HighSpending(s.monthExpenses) in insights <==> s.monthExpenses > SpendThreshold)
      && (TaskBacklog(s.pending) in insights <==> s.pending > BacklogThreshold)
  {
    WeeklyInsightsContents(db.healthLogs, db.transactions, db.tasks, CurrentUser, monthStart);
  }
}
