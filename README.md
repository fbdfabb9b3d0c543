# LifeOS backend core in Dafny

LifeOS is a personal dashboard backend (FastAPI over SQLAlchemy). This project
models the part of it that decides something, and proves properties of that
model:

- **The rule-based insight engine** (`AIEngine`). It has three checks:
  - a sleep and mood correlation over the user's 30 newest health logs;
  - a spend check over the month's expenses;
  - a backlog check over pending tasks.
  It answers with one to three messages in a fixed order.
- **The weekly review.** `generate_weekly_review` creates the review of the current
  Monday-to-Sunday week at most once per user and week. The review carries fixed
  area scores, their mean, and the engine's messages joined by spaces.
  `get_reviews` lists the reviews newest week first.
- **Tasks and habits.**
  - Tasks are created, listed incomplete-first by due date, overwritten, and
    deleted, with a 404 for unknown ids.
  - Habits are created, listed, and checked off for a day. A repeated check on
    the same day returns the stored log. A first check inserts a log and raises
    the habit's streak by one.
- **Relationships.** Contacts are created and listed with their interactions.
  Logging an interaction always stores it. It also moves the contact's
  last-contact date forward, never back.
- **The dashboard summary.** It gives today's sleep and mood, the pending count,
  and the next task (first P1, else first pending). It also gives the streak sum,
  the habit count, the month's spend, and the first goal in progress, with their
  defaults when data is missing.

## How the model is built

- **Modules.** There is one module per source file: `AiEngine`, `Reviews`,
  `Tasks`, `Relationships` and `Dashboard`. They share `Records` (the table rows
  and two shared queries), `Database`, `Calendar`, `Seqs` (filter, first match,
  sums, and a specification of sorting whose contract leaves the order of ties open) and `Wrappers`.
- **The database** is one `Database.Db` object. Each table is a `seq` field, and
  each id column has a counter standing for its primary-key sequence.
  - Router operations that write are methods with `modifies` frames naming
    exactly the tables they touch.
  - `Db.Valid()` holds three invariants, and every writing method keeps them:
    - primary keys are distinct;
    - at most one habit log exists per habit and day;
    - at most one review exists per user and week, each spanning Monday to
      Sunday.
- **Queries.** A query without `ORDER BY` returns rows in table order, so
  `.first()` is the first matching row in the sequence.
- **The engine's database reads** become the table contents passed in.
  - `AnalyzeSleepMood` and `GenerateWeeklyInsights` keep the source's loop and
    its appends.
  - Each is proved equal to a specification function, `SleepMoodVerdict` or
    `WeeklyInsights`. The lemmas are stated about those functions.
- **Messages** are the `Insight` datatype, whose constructors carry the numbers
  the text cites. `Message` renders the source's texts. The caller supplies the
  float formatter `fmt(x, k)`, standing for `f"{x:.kf}"`.
- **Dates** are day numbers (proleptic Gregorian ordinals, day 1 a Monday), so
  `date.weekday()` is `(d + 6) % 7`.
  - `today` is a parameter.
  - "The first of this month" is a parameter `monthStart`, because no calendar
    is modelled.
- **Uniqueness of reviews.** Nothing in `models/review.py` makes (user_id,
  week_start_date) unique: `generate_weekly_review` checks, then inserts. The
  model keeps uniqueness as a `Db.Valid()` invariant that `GenerateWeeklyReview`
  is proved to preserve, one request at a time.

## Model

| member | source | states |
|---|---|---|
| Calendar.Weekday | backend/app/routers/review.py:21 | the weekday offset lies in 0..6 |
| Calendar.WeekStart | backend/app/routers/review.py:21 | `today - today.weekday()` is a Monday, on or before `today` and at most 6 days earlier |
| Calendar.WeekEnd | backend/app/routers/review.py:22 | the week end is a Sunday exactly 6 days after the week start, so `week_start <= today <= week_end` |
| Calendar.MondayOfWeekUnique | backend/app/routers/review.py:21 | the Monday found is the only Monday within 6 days before `today` |
| Calendar.SameWeekSameStart | backend/app/routers/review.py:21-22 | every day of a week yields the same week start and end |
| Records.MonthExpenseTotal | backend/app/services/ai_engine.py:59-66 | the month's spend over no transactions is 0; with the Append, None and NonNegative lemmas it is the sum of the user's expenses dated on or after the first of the month |
| Records.MonthExpenseTotalAppend | backend/app/services/ai_engine.py:59-66 | the month's spend grows by exactly the amount of each further expense of the user dated on or after the first of the month (no upper bound); other rows add nothing |
| Records.MonthExpenseTotalNone | backend/app/routers/dashboard.py:39-41 | with no matching expense the month's spend is 0 |
| Records.MonthExpenseTotalNonNegative | backend/app/routers/dashboard.py:39-41 | when every matching expense is non-negative, so is the month's spend |
| Records.PendingTasks | backend/app/services/ai_engine.py:72-75 | exactly the user's incomplete tasks |
| Records.PendingTasksCount | backend/app/services/ai_engine.py:74-76 | the pending count the backlog rule compares is the number of the user's incomplete task rows |
| Database.ReviewsWellFormedAppend | backend/app/routers/review.py:48-62 | inserting a Monday-to-Sunday review for a (user, week) that has none keeps one review per user and week |
| Tasks.CreateTask | backend/app/routers/tasks.py:19-33 | appends one task with the request's fields, user 1, a fresh id and the clock's time; existing tasks unchanged |
| Tasks.TaskOrderIsTotalPreorder | backend/app/routers/tasks.py:38 | `ORDER BY is_completed, due_date` is a total preorder, whichever end NULL dates sort to |
| Tasks.SortTasks | backend/app/routers/tasks.py:38 | the ordering keeps every task as often as given, and lists each task no later than the ones after it by (completed, due date) |
| Tasks.GetTasks | backend/app/routers/tasks.py:35-39 | exactly user 1's tasks, each as often as in the table, incomplete before completed, and by due date within each group |
| Tasks.UpdateTask | backend/app/routers/tasks.py:41-57 | 404 and no change exactly when no task has the id; otherwise the first task with that id gets the five request fields and keeps its id, owner and creation time, and every other row is unchanged |
| Tasks.DeleteTask | backend/app/routers/tasks.py:59-68 | 404 and no change exactly when no task has the id; otherwise that one row is removed and every other task stays |
| Tasks.CreateHabit | backend/app/routers/tasks.py:72-83 | appends one habit of user 1 with a streak of 0 and a fresh id |
| Tasks.GetHabits | backend/app/routers/tasks.py:85-89 | exactly user 1's habits, each as often as in the table |
| Tasks.CheckHabit | backend/app/routers/tasks.py:91-113 | a log already stored for (habit, date) is returned and nothing changes; otherwise one completed log is appended, even for an unknown habit, and exactly that habit's streak (if it exists) goes up by one; one log per habit and day is kept |
| Tasks.CheckHabitTwice | backend/app/routers/tasks.py:94-102 | two checks of a habit on one day return the same log, which is in the table, and add at most one log; on a day that already had a log nothing changes, and on a day with no log yet one log is added and the streak goes up once |
| Relationships.CreateContact | backend/app/routers/relationship.py:20-32 | appends one contact of user 1 with the request's name, type and frequency and no last-contact date |
| Relationships.GetContacts | backend/app/routers/relationship.py:34-43 | exactly user 1's contacts, each listed with exactly the interactions naming it |
| Relationships.LaterContact | backend/app/routers/relationship.py:61-62 | the new last-contact date is the later of the old one and the interaction date, or the interaction date when there was none |
| Relationships.LogInteraction | backend/app/routers/relationship.py:47-68 | the interaction is always appended, even for an unknown contact; the contact with that id has its date moved to the later of the two; no other contact changes |
| Relationships.LastContactMonotone | backend/app/routers/relationship.py:58-63 | no last-contact date ever moves back; an interaction dated on or before the stored date leaves the contact as it was; only the named contact can change; afterwards the named contact's date is at least the interaction date |
| AiEngine.NewestFirstIsTotalPreorder | backend/app/services/ai_engine.py:19 | `ORDER BY date DESC` is a total preorder |
| AiEngine.UserLogs | backend/app/services/ai_engine.py:18 | exactly the user's health logs |
| AiEngine.UserLogsCount | backend/app/services/ai_engine.py:16-24 | the number of logs the not-enough-data rule sees, before the cap of 30, is the number of the user's health-log rows |
| AiEngine.NewestFirst | backend/app/services/ai_engine.py:19 | the ordering keeps every log as often as given and lists dates in descending order |
| AiEngine.Recent | backend/app/services/ai_engine.py:16-22 | the window holds min(30, number of the user's logs) logs |
| AiEngine.RecentKeepsUserLogs | backend/app/services/ai_engine.py:16-22 | the window holds only logs of the user, and all of them when there are at most 30 |
| AiEngine.RecentNewestFirst | backend/app/services/ai_engine.py:19 | the window is in descending date order |
| AiEngine.PrefixIsNewest | backend/app/services/ai_engine.py:19-20 | in a list sorted newest first, the entries after the first n are no newer than any of the first n |
| AiEngine.RecentLeavesOutOlder | backend/app/services/ai_engine.py:19-20 | every log of the user left out of the window is no newer than every log kept |
| AiEngine.Bucket | backend/app/services/ai_engine.py:27-35 | a bucket holds at most one mood per log scanned, and never a mood of 0 (falsy moods are skipped) |
| AiEngine.Mean | backend/app/services/ai_engine.py:40-41 | the mean times the bucket size is the bucket's sum |
| AiEngine.MeanWithinMoods | backend/app/services/ai_engine.py:40-41 | the mean lies between the lowest and the highest mood of the bucket |
| AiEngine.CompareMeans | backend/app/services/ai_engine.py:43-48 | significant (citing both means) iff the good mean exceeds the other by more than 1; slightly happier iff it exceeds it by more than 0 and at most 1; neutral iff it does not exceed it |
| AiEngine.SleepMoodVerdict | backend/app/services/ai_engine.py:24-48 | the verdict is always one of the five sleep and mood outcomes; each branch is stated by a lemma: InsufficientData (fewer than 5 logs), KeepTrackingExactly (an empty bucket), VerdictByCrossMultiplication (the three-way comparison) |
| AiEngine.AnalyzeSleepMood | backend/app/services/ai_engine.py:14-48 | the single-pass loop filling the two bucket lists returns the correlation verdict on the user's 30 newest logs |
| AiEngine.KeepTrackingExactly | backend/app/services/ai_engine.py:24-38 | with at least 5 logs in the window, the keep-tracking message comes exactly when the good-sleep or the other bucket is empty |
| AiEngine.InsufficientData | backend/app/services/ai_engine.py:24-25 | not-enough-data exactly when the user has fewer than 5 logs, whatever they contain |
| AiEngine.BucketConcat | backend/app/services/ai_engine.py:30-35 | scanning two stretches of logs in turn fills each bucket with the first stretch's moods then the second's |
| AiEngine.BucketsPartition | backend/app/services/ai_engine.py:30-35 | each qualifying log lands in exactly one bucket: the two bucket sizes add up to the number of qualifying logs |
| AiEngine.UnqualifiedLogIgnored | backend/app/services/ai_engine.py:31 | a log with missing or zero sleep, or missing or zero mood, changes neither bucket wherever it stands |
| AiEngine.BucketPermutation | backend/app/services/ai_engine.py:30-35 | reordering the window reorders each bucket's moods and changes nothing else |
| AiEngine.VerdictOrderInsensitive | backend/app/services/ai_engine.py:30-48 | the verdict depends only on which logs are in the window, not their order |
| AiEngine.CrossMultiplyInt | backend/app/services/ai_engine.py:40-43 | `g/ng > b/nb + gap` exactly when `g*nb > b*ng + gap*ng*nb`, for positive counts |
| AiEngine.MeansByCrossMultiplication | backend/app/services/ai_engine.py:40-45 | comparing the bucket means (with and without the gap of 1) is comparing cross-multiplied integer sums; the division is only reached with non-empty buckets |
| AiEngine.VerdictByCrossMultiplication | backend/app/services/ai_engine.py:43-48 | with both buckets filled: significant iff G*b > B*g + g*b, slightly happier iff B*g < G*b <= B*g + g*b, neutral iff G*b <= B*g (equal means are neutral) |
| AiEngine.SameMoodsNoEffect | backend/app/services/ai_engine.py:45-48 | buckets holding the same moods give the neutral message |
| AiEngine.SignificantScenario | backend/app/services/ai_engine.py:30-44 | six 8-hour nights with mood 9 and four 5-hour nights with mood 4, in any order, give the significant message citing 9.0 and 4.0 |
| AiEngine.ScenarioVerdict | backend/app/services/ai_engine.py:30-44 | the scenario's ten nights listed rested first give the significant message citing 9.0 and 4.0 |
| AiEngine.ScenarioBuckets | backend/app/services/ai_engine.py:30-35 | the scenario's buckets are six moods of 9 and four moods of 4 |
| AiEngine.WeeklyInsights | backend/app/services/ai_engine.py:50-79 | one to three messages |
| AiEngine.WeeklyInsightsContents | backend/app/services/ai_engine.py:50-79 | the sleep and mood verdict comes first and alone of its kind; the spend message appears exactly when the month's spend exceeds 2000 and cites it; the backlog message appears exactly when more than 5 tasks are pending and cites the count; spend precedes backlog |
| AiEngine.GenerateWeeklyInsights | backend/app/services/ai_engine.py:50-79 | the appends in source order produce exactly the specified message list |
| AiEngine.FourExpensesTotal | backend/app/services/ai_engine.py:61-66 | four expenses of the month total the sum of their amounts |
| AiEngine.SpendOverThreshold | backend/app/services/ai_engine.py:59-69 | expenses of 500, 600, 700 and 300 this month draw the spend message citing 2100 |
| AiEngine.SpendAtThreshold | backend/app/services/ai_engine.py:68 | a month of exactly 2000 draws no spend message |
| AiEngine.BacklogBoundary | backend/app/services/ai_engine.py:72-77 | 5 pending tasks draw no backlog message; 6 draw one citing 6 |
| AiEngine.DecimalDigits | backend/app/services/ai_engine.py:77 | `str(n)` of a count: non-empty, digits only, no leading zero, and it reads back as `n` |
| AiEngine.Message | backend/app/services/ai_engine.py:25-77 | every message is non-empty, and the backlog message cites the pending count right after "You have " |
| AiEngine.Messages | backend/app/services/ai_engine.py:50-79 | one message per insight, in order, each the insight's text |
| Reviews.GlobalScore | backend/app/routers/review.py:41 | four times the global score is the sum of the four scores; it is at least one of the scores and at most one of them, so between the lowest and the highest |
| Reviews.FixedGlobalScore | backend/app/routers/review.py:37-41 | the fixed scores 75, 80, 60 and 90 give 76.25 |
| Reviews.Join | backend/app/routers/review.py:46 | the joined text is empty for no parts, else as long as the parts plus one separator between each two |
| Reviews.JoinEnds | backend/app/routers/review.py:46 | the joined text starts with the first part and ends with the last |
| Reviews.AiSummary | backend/app/routers/review.py:44-46 | the week's summary opens with the sleep and mood message |
| Reviews.SummaryLayout | backend/app/routers/review.py:43-46 | the summary ends with the backlog message when there is one, and is the sleep and mood message alone when neither other check fires |
| Reviews.SummarizeWeek | backend/app/routers/review.py:44-46 | running the engine for user 1 and joining its messages with single spaces gives the specified summary |
| Reviews.NewReview | backend/app/routers/review.py:48-58 | the inserted row belongs to user 1, spans the Monday-to-Sunday week holding `today`, and has a global score of 76.25 |
| Reviews.GenerateWeeklyReview | backend/app/routers/review.py:17-63 | an existing review of user 1 for this week is returned and nothing changes; otherwise exactly one review, built from the fixed scores and the engine's summary, is appended; one review per user and week is kept |
| Reviews.InsertReview | backend/app/routers/review.py:48-62 | appends the new review and keeps the tables valid |
| Reviews.GenerateTwiceInOneWeek | backend/app/routers/review.py:24-33 | generating on any two days of one week returns the same record both times, adds at most one row, and leaves exactly one review for that week in the table, the one returned |
| Reviews.WeekNoEarlierIsTotalPreorder | backend/app/routers/review.py:69 | `ORDER BY week_start_date DESC` is a total preorder |
| Reviews.SortReviews | backend/app/routers/review.py:69 | the ordering keeps every review as often as given and lists week starts in descending order |
| Reviews.GetReviews | backend/app/routers/review.py:65-71 | exactly user 1's reviews, each as often as in the table, in descending week order |
| Reviews.ReviewOccursOnce | backend/app/routers/review.py:24-33 | with one review per user and week, no review occurs twice in the table |
| Reviews.SameWeekSameReview | backend/app/routers/review.py:20-27 | under the table invariant two reviews of one user for one week are the same review |
| Reviews.ReviewsStrictlyNewestFirst | backend/app/routers/review.py:65-71 | under the table invariant the listing goes strictly back in time, one review per week |
| Dashboard.TotalStreak | backend/app/routers/dashboard.py:34-36 | the running total over the habit rows equals Python's `sum` of the streaks of the user's habits |
| Dashboard.NextTaskTitle | backend/app/routers/dashboard.py:31 | the first P1 pending task's title, else the first pending task's, else "No pending tasks" |
| Dashboard.DashboardSummary | backend/app/routers/dashboard.py:18-68 | today's first log's sleep and mood (0 when there is no log); the pending count and next task; the streak sum and habit count; the month's spend; the first goal in progress, or "Set a goal" with progress 0 |
| Dashboard.ActiveCountCountsUserHabits | backend/app/routers/dashboard.py:34-36 | the active count is the number of the user's habit rows |
| Dashboard.StreakBumpRaisesTotal | backend/app/routers/dashboard.py:36 | one more completion of a habit raises the total streak by exactly one if the habit is the user's, and leaves it alone otherwise |
| Dashboard.NewHabitKeepsTotal | backend/app/routers/dashboard.py:36 | a new habit, starting at streak 0, leaves the total streak unchanged |
| Dashboard.DashboardAgreesWithInsights | backend/app/routers/dashboard.py:39-41 | the engine's spend message appears exactly when the dashboard's month spend exceeds 2000, and its backlog message exactly when the dashboard's pending count exceeds 5 |

## Left out

- HTTP, the ORM and async I/O are not modelled: routers, `Depends`, sessions, `commit`/`refresh` and response models. Each query is a filter, first match or sort over the table's sequence.
- Authentication is not modelled: `routers/auth.py` and `app.core.security` are not part of this model. The user id is the constant 1, as in every modelled router.
- Some routers are not part of this model: the insert-and-list routers for health, wealth and purpose, the `insights` router (a one-line delegate to the engine), and `main.py` (app wiring).
- Columns no modelled operation reads are dropped from the rows. Examples are stress, water, notes on health logs, and key results.
- Foreign keys are not enforced. A task, habit log or interaction may name a row that does not exist, as the modelled code allows.
- Primary keys come from an id counter per table that only grows. That is the model's choice: a database may hand out a deleted row's id again (SQLite's `INTEGER PRIMARY KEY` without AUTOINCREMENT reuses the highest id once that row is deleted), and the model does not capture such reuse.
- Check-then-insert races are not modelled; the model runs one request at a time.
  - Two concurrent review generations for one week can both pass the existence check and insert two reviews, breaking the one-review-per-week invariant of `Db.Valid()`.
  - Tasks.CheckHabit has the same race: two concurrent first checks of a habit on one day can both find no log, insert two logs and raise the streak by 2. This breaks `OneLogPerHabitDay`, which `Db.Valid()` assumes.
- `date.today()`, the server clock (`created_at`) and "first of this month" are parameters: `today`, `now` and `monthStart`. No Gregorian calendar is modelled.
- Floating point is modelled as exact `real`: amounts, sleep hours, means and scores. Rounding and the `:.1f`/`:.0f` formatting are the caller-supplied `fmt`.
- AiEngine.VerdictByCrossMultiplication: the comparison at a mean gap of exactly 1 is decided in exact arithmetic, and the source's doubles can decide it the other way. With good-sleep moods [2, 2, 3] and other moods [1, 1, 2], the doubles compute 7/3 > 4/3 + 1 as true and give the significant message. The model has 21 > 21 false and gives `SlightlyHappier`. The same divergence applies to `SleepMoodVerdict` and `CompareMeans`.
- AiEngine.Recent: when several logs share the oldest kept date, which of them the database keeps is unspecified. The model's sort happens to keep input order among ties, but no contract or lemma relies on that: the lemmas state only what holds for every such choice.
- Tasks.GetTasks: where NULL due dates sort depends on the database. The model takes it as the `nullsFirst` parameter. The order of tied rows is left open: the model's sort happens to keep input order, but no contract or lemma relies on that.
- Dashboard.DashboardSummary: a log for today with a NULL sleep or mood yields `None` (JSON `null`), as in the source, not 0. The integer default 0 is modelled as the real 0.0 where the field is a float.
