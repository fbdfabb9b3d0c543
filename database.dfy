/** The relational store as one object whose fields are the tables. Each table
    whose rows get an id has an id counter standing for the primary-key sequence. */
module Database {
  import opened Calendar
  import opened Records

  /** Every router acts for this user; there is no authentication. */
  const CurrentUser: int := 1

  /** Ids below the counter and pairwise distinct: a primary key. */
  predicate KeyedBelow<T>(rows: seq<T>, key: T -> int, next: int)
  {
    && (forall i :: 0 <= i < |rows| ==> key(rows[i]) < next)
    && (forall i, j :: 0 <= i < j < |rows| ==> key(rows[i]) != key(rows[j]))
  }

  /** Deleting a row keeps a primary key valid. */
  lemma KeyedBelowRemove<T>(rows: seq<T>, key: T -> int, next: int, k: nat)
    requires KeyedBelow(rows, key, next)
    requires k < |rows|
    ensures KeyedBelow(rows[..k] + rows[k + 1..], key, next)
  {
    var rest := rows[..k] + rows[k + 1..];
    forall i | 0 <= i < |rest| ensures rest[i] == rows[if i < k then i else i + 1] {
    }
  }

  /** At most one habit log per (habit, date), as check_habit keeps it. */
  predicate OneLogPerHabitDay(logs: seq<HabitLog>)
  {
    forall i, j :: 0 <= i < j < |logs| ==> logs[i].habitId != logs[j].habitId || logs[i].date != logs[j].date
  }

  /** At most one review per (user, week start), and every review spans a
      Monday-to-Sunday week, as generate_weekly_review keeps it. */
  predicate ReviewsWellFormed(reviews: seq<WeeklyReview>)
  {
    && (forall i :: 0 <= i < |reviews| ==>
          Weekday(reviews[i].weekStart) == 0 && reviews[i].weekEnd == reviews[i].weekStart + 6)
    && (forall i, j :: 0 <= i < j < |reviews| ==>
          reviews[i].userId != reviews[j].userId || reviews[i].weekStart != reviews[j].weekStart)
  }

  /** Adding a Monday-to-Sunday review for a (user, week) that has none keeps
      the reviews well formed. */
  lemma ReviewsWellFormedAppend(reviews: seq<WeeklyReview>, r: WeeklyReview)
    requires ReviewsWellFormed(reviews)
    requires Weekday(r.weekStart) == 0 && r.weekEnd == r.weekStart + 6
    requires forall x :: x in reviews ==> x.userId != r.userId || x.weekStart != r.weekStart
    ensures ReviewsWellFormed(reviews + [r])
  {
    var after := reviews + [r];
    forall i, j | 0 <= i < j < |after|
      ensures after[i].userId != after[j].userId || after[i].weekStart != after[j].weekStart
    {
      if j == |reviews| {
        assert after[i] in reviews;
      }
    }
  }

  class Db {
    var healthLogs: seq<HealthLog>
    var transactions: seq<Transaction>
    var goals: seq<Goal>
    var tasks: seq<Task>
    var habits: seq<Habit>
    var habitLogs: seq<HabitLog>
    var contacts: seq<Contact>
    var interactions: seq<Interaction>
    var reviews: seq<WeeklyReview>

    var nextTaskId: int
    var nextHabitId: int
    var nextHabitLogId: int
    var nextContactId: int
    var nextInteractionId: int
    var nextReviewId: int

    predicate Valid()
      reads this
    {
      && KeyedBelow(tasks, (t: Task) => t.id, nextTaskId)
      && KeyedBelow(habits, (h: Habit) => h.id, nextHabitId)
      && KeyedBelow(habitLogs, (l: HabitLog) => l.id, nextHabitLogId)
      && KeyedBelow(contacts, (c: Contact) => c.id, nextContactId)
      && KeyedBelow(interactions, (i: Interaction) => i.id, nextInteractionId)
      && KeyedBelow(reviews, (r: WeeklyReview) => r.id, nextReviewId)
      && OneLogPerHabitDay(habitLogs)
      && ReviewsWellFormed(reviews)
    }

    /** An empty database; primary keys start at 1. */
    constructor ()
      ensures Valid()
      ensures healthLogs == [] && transactions == [] && goals == []
      ensures tasks == [] && habits == [] && habitLogs == []
      ensures contacts == [] && interactions == [] && reviews == []
    {
      healthLogs, transactions, goals := [], [], [];
      tasks, habits, habitLogs := [], [], [];
      contacts, interactions, reviews := [], [], [];
      nextTaskId, nextHabitId, nextHabitLogId := 1, 1, 1;
      nextContactId, nextInteractionId, nextReviewId := 1, 1, 1;
    }
  }
}
