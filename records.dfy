/** Rows of the LifeOS tables that the modelled routers and the insight engine
    touch, with only the columns they read or write, and the queries that more
    than one router shares. */
module Records {
  import opened Wrappers
  import opened Calendar
  import opened Seqs

  /** A row of `health_logs`. Nothing makes (user, date) unique. */
  datatype HealthLog = HealthLog(
    userId: int,
    date: Date,
    sleepHours: Option<real>,
    moodScore: Option<int>)

  /** A row of `transactions`; `kind` is the free-text `type` column ("income", "expense"). */
  datatype Transaction = Transaction(
    userId: int,
    date: Date,
    amount: real,
    kind: string,
    category: string)

  /** A row of `tasks`; `createdAt` is the server-side creation timestamp. */
  datatype Task = Task(
    id: int,
    userId: int,
    title: string,
    description: Option<string>,
    priority: string,
    dueDate: Option<Date>,
    isCompleted: bool,
    createdAt: int)

  /** A row of `habits`. */
  datatype Habit = Habit(
    id: int,
    userId: int,
    title: string,
    frequency: string,
    currentStreak: int)

  /** A row of `habit_logs`. */
  datatype HabitLog = HabitLog(
    id: int,
    habitId: int,
    date: Date,
    completed: bool)

  /** A row of `contacts`. */
  datatype Contact = Contact(
    id: int,
    userId: int,
    name: string,
    relationshipType: string,
    lastContactDate: Option<Date>,
    contactFrequencyDays: int)

  /** A row of `interactions`; `kind` is the `type` column ("Call", "Meetup", ...). */
  datatype Interaction = Interaction(
    id: int,
    contactId: int,
    date: Date,
    kind: string,
    notes: Option<string>)

  /** A row of `goals`. */
  datatype Goal = Goal(
    userId: int,
    title: string,
    progress: real,
    status: string)

  /** A row of `weekly_reviews`. */
  datatype WeeklyReview = WeeklyReview(
    id: int,
    userId: int,
    weekStart: Date,
    weekEnd: Date,
    healthScore: real,
    wealthScore: real,
    relationshipScore: real,
    productivityScore: real,
    globalScore: real,
    wins: Option<string>,
    challenges: Option<string>,
    aiSummary: Option<string>)

  /** An expense of `user` dated on or after the first of the month. */
  predicate IsMonthExpense(t: Transaction, user: int, monthStart: Date)
  {
    t.userId == user && t.date >= monthStart && t.kind == "expense"
  }

  /** The amounts of `txs`, in order. */
  function Amounts(txs: seq<Transaction>): (r: seq<real>)
    ensures |r| == |txs|
    ensures forall i :: 0 <= i < |txs| ==> r[i] == txs[i].amount
  {
    seq(|txs|, i requires 0 <= i < |txs| => txs[i].amount)
  }

  /** `sum(t.amount for t in <the user's expenses since monthStart>)`. */
  function MonthExpenseTotal(txs: seq<Transaction>, user: int, monthStart: Date): (r: real)
    ensures txs == [] ==> r == 0.0
  {
    SumReal(Amounts(Filter(txs, (t: Transaction) => IsMonthExpense(t, user, monthStart))))
  }

  /** The month's spend grows by exactly the amount of each further matching
      transaction, whatever its date beyond `monthStart`; other rows add nothing. */
  lemma {:induction false} MonthExpenseTotalAppend(txs: seq<Transaction>, t: Transaction, user: int, monthStart: Date)
    ensures MonthExpenseTotal(txs + [t], user, monthStart)
         == MonthExpenseTotal(txs, user, monthStart) + (if IsMonthExpense(t, user, monthStart) then t.amount else 0.0)
  {
    var p := (x: Transaction) => IsMonthExpense(x, user, monthStart);
    assert (txs + [t])[..|txs + [t]| - 1] == txs;
    var f := Filter(txs, p);
    if p(t) {
      assert Filter(txs + [t], p) == f + [t];
      assert Amounts(f + [t])[..|f|] == Amounts(f);
    } else {
      assert Filter(txs + [t], p) == f;
    }
  }

  /** With no matching expense the month's spend is 0. */
  lemma MonthExpenseTotalNone(txs: seq<Transaction>, user: int, monthStart: Date)
    requires forall t :: t in txs ==> !IsMonthExpense(t, user, monthStart)
    ensures MonthExpenseTotal(txs, user, monthStart) == 0.0
  {
    var f := Filter(txs, (t: Transaction) => IsMonthExpense(t, user, monthStart));
    assert forall i :: 0 <= i < |f| ==> f[i] in txs;
  }

  /** When every matching expense is non-negative, so is the month's spend. */
  lemma MonthExpenseTotalNonNegative(txs: seq<Transaction>, user: int, monthStart: Date)
    requires forall t :: t in txs && IsMonthExpense(t, user, monthStart) ==> t.amount >= 0.0
    ensures MonthExpenseTotal(txs, user, monthStart) >= 0.0
  {
    var f := Filter(txs, (t: Transaction) => IsMonthExpense(t, user, monthStart));
    assert forall i :: 0 <= i < |f| ==> f[i] in txs;
    SumRealNonNegative(Amounts(f));
  }

  /** The user's tasks with `is_completed == False`, in table order. */
  function PendingTasks(tasks: seq<Task>, user: int): (r: seq<Task>)
    ensures forall t :: t in r <==> t in tasks && t.userId == user && !t.isCompleted
  {
    Filter(tasks, (t: Task) => t.userId == user && !t.isCompleted)
  }

  /** The pending count the backlog rule compares is the number of the user's
      incomplete task rows. */
  lemma {:induction false} PendingTasksCount(tasks: seq<Task>, user: int)
    ensures |PendingTasks(tasks, user)| == |PendingIndices(tasks, user)|
    decreases |tasks|
  {
    if tasks != [] {
      var n := |tasks| - 1;
      PendingTasksCount(tasks[..n], user);
      PendingTasksStep(tasks, user);
      PendingIndicesStep(tasks, user);
    }
  }

  /** The indices of the user's incomplete task rows. */
  function PendingIndices(tasks: seq<Task>, user: int): set<nat>
  {
    set i: nat | i < |tasks| && tasks[i].userId == user && !tasks[i].isCompleted
  }

  lemma PendingTasksStep(tasks: seq<Task>, user: int)
    requires tasks != []
    ensures var t := tasks[|tasks| - 1];
      |PendingTasks(tasks, user)|
        == |PendingTasks(tasks[..|tasks| - 1], user)| + (if t.userId == user && !t.isCompleted then 1 else 0)
  {
  }

  lemma PendingIndicesStep(tasks: seq<Task>, user: int)
    requires tasks != []
    ensures var t, n := tasks[|tasks| - 1], |tasks| - 1;
      |PendingIndices(tasks, user)|
        == |PendingIndices(tasks[..n], user)| + (if t.userId == user && !t.isCompleted then 1 else 0)
  {
    var n := |tasks| - 1;
    var t := tasks[n];
    var before, after := PendingIndices(tasks[..n], user), PendingIndices(tasks, user);
    assert n !in before;
    assert forall i :: i in before <==> i in after && i != n by {
      forall i: nat ensures i in before <==> i in after && i != n {
        if i < n {
          assert tasks[..n][i] == tasks[i];
        }
      }
    }
    if t.userId == user && !t.isCompleted {
      assert after == before + {n};
    } else {
      assert after == before;
    }
  }
}
