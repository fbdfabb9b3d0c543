/** The weekly review endpoints: generate the review of the current week once,
    with fixed scores and the insight engine's messages as its summary, and
    list the user's reviews newest week first. */
module Reviews {
  import opened Wrappers
  import opened Calendar
  import opened Seqs
  import opened Records
  import opened Database
  import opened AiEngine

  /** The fixed area scores every generated review carries. */
  const HealthScore: real := 75.0
  const WealthScore: real := 80.0
  const RelationshipScore: real := 60.0
  const ProductivityScore: real := 90.0

  /** The mean of the four area scores. */
  function GlobalScore(h: real, w: real, r: real, p: real): (g: real)
    ensures g * 4.0 == h + w + r + p
    ensures h <= g || w <= g || r <= g || p <= g
    ensures g <= h || g <= w || g <= r || g <= p
    ensures (h == w && w == r && r == p) ==> g == h
  {
    (h + w + r + p) / 4.0
  }

  /** The fixed scores give a global score of 76.25. */
  lemma FixedGlobalScore()
    ensures GlobalScore(HealthScore, WealthScore, RelationshipScore, ProductivityScore) == 76.25
  {
  }

  /** The total length of some strings. */
  function TotalLength(parts: seq<string>): nat
    decreases |parts|
  {
    if parts == [] then 0 else TotalLength(parts[..|parts| - 1]) + |parts[|parts| - 1]|
  }

  /** `sep.join(parts)`. */
  function Join(parts: seq<string>, sep: string): (r: string)
    ensures parts == [] ==> r == ""
    ensures parts != [] ==> |r| == TotalLength(parts) + (|parts| - 1) * |sep|
    decreases |parts|
  {
    if parts == [] then ""
    else if |parts| == 1 then parts[0]
    else Join(parts[..|parts| - 1], sep) + sep + parts[|parts| - 1]
  }

  /** The joined text starts with the first part and ends with the last. */
  lemma {:induction false} JoinEnds(parts: seq<string>, sep: string)
    requires parts != []
    ensures parts[0] <= Join(parts, sep)
    ensures var r, last := Join(parts, sep), parts[|parts| - 1];
      r[|r| - |last|..] == last
    decreases |parts|
  {
    if |parts| > 1 {
      var init := parts[..|parts| - 1];
      JoinEnds(init, sep);
      assert init[0] == parts[0];
      assert Join(parts, sep) == Join(init, sep) + sep + parts[|parts| - 1];
    }
  }

  /** The week's summary: the engine's messages for the current user, joined by
      single spaces. */
  function AiSummary(healthLogs: seq<HealthLog>, txs: seq<Transaction>, tasks: seq<Task>,
                     monthStart: Date, fmt: (real, nat) -> string): (s: string)
    ensures Message(SleepMoodVerdict(Recent(healthLogs, CurrentUser)), fmt) <= s
  {
    var insights := WeeklyInsights(healthLogs, txs, tasks, CurrentUser, monthStart);
    JoinEnds(Messages(insights, fmt), " ");
    WeeklyInsightsContents(healthLogs, txs, tasks, CurrentUser, monthStart);
    Join(Messages(insights, fmt), " ")
  }

  /** The summary ends with the backlog message when there is a backlog, and is
      the sleep and mood message alone when neither the spend nor the backlog
      check fires. */
  lemma SummaryLayout(healthLogs: seq<HealthLog>, txs: seq<Transaction>, tasks: seq<Task>,
                      monthStart: Date, fmt: (real, nat) -> string)
    ensures var s, pending := AiSummary(healthLogs, txs, tasks, monthStart, fmt), |PendingTasks(tasks, CurrentUser)|;
      var m := Message(TaskBacklog(pending), fmt);
      pending > BacklogThreshold ==> s[|s| - |m|..] == m
    ensures MonthExpenseTotal(txs, CurrentUser, monthStart) <= SpendThreshold
            && |PendingTasks(tasks, CurrentUser)| <= BacklogThreshold ==>
              AiSummary(healthLogs, txs, tasks, monthStart, fmt)
                == Message(SleepMoodVerdict(Recent(healthLogs, CurrentUser)), fmt)
  {
    var insights := WeeklyInsights(healthLogs, txs, tasks, CurrentUser, monthStart);
    var parts := Messages(insights, fmt);
    JoinEnds(parts, " ");
    WeeklyInsightsContents(healthLogs, txs, tasks, CurrentUser, monthStart);
    if |PendingTasks(tasks, CurrentUser)| > BacklogThreshold {
      assert insights[|insights| - 1] == TaskBacklog(|PendingTasks(tasks, CurrentUser)|);
    }
  }

  /** Runs the engine for the current user and joins its messages. */
  method SummarizeWeek(healthLogs: seq<HealthLog>, txs: seq<Transaction>, tasks: seq<Task>,
                       monthStart: Date, fmt: (real, nat) -> string) returns (summary: string)
    ensures summary == AiSummary(healthLogs, txs, tasks, monthStart, fmt)
  {
    var insights := GenerateWeeklyInsights(healthLogs, txs, tasks, CurrentUser, monthStart);
    summary := Join(Messages(insights, fmt), " ");
  }

  /** Whether `r` is the current user's review of the week starting on `weekStart`. */
  predicate IsReviewOf(r: WeeklyReview, weekStart: Date)
  {
    r.userId == CurrentUser && r.weekStart == weekStart
  }

  /** The row a generation on `today` inserts. */
  function NewReview(id: int, today: Date, summary: string): (r: WeeklyReview)
    ensures r.userId == CurrentUser
    ensures Weekday(r.weekStart) == 0 && r.weekStart <= today <= r.weekEnd && r.weekEnd == r.weekStart + 6
    ensures r.globalScore == 76.25
  {
    WeeklyReview(id, CurrentUser, WeekStart(today), WeekEnd(today),
                 HealthScore, WealthScore, RelationshipScore, ProductivityScore,
                 GlobalScore(HealthScore, WealthScore, RelationshipScore, ProductivityScore),
                 None, None, Some(summary))
  }

  /** Returns the current user's review of the week holding `today` if one
      exists, changing nothing; otherwise inserts one built from the fixed
      scores and the engine's messages. `monthStart` is the first day of
      `today`'s month; `fmt` renders the numbers in the messages. */
  method GenerateWeeklyReview(db: Db, today: Date, monthStart: Date, fmt: (real, nat) -> string)
    returns (review: WeeklyReview)
    requires db.Valid()
    modifies db`reviews, db`nextReviewId
    ensures db.Valid()
    ensures review in db.reviews && IsReviewOf(review, WeekStart(today))
    ensures (exists r :: r in old(db.reviews) && IsReviewOf(r, WeekStart(today))) ==>
              && review in old(db.reviews)
              && db.reviews == old(db.reviews) && db.nextReviewId == old(db.nextReviewId)
    ensures (forall r :: r in old(db.reviews) ==> !IsReviewOf(r, WeekStart(today))) ==>
              && review == NewReview(old(db.nextReviewId), today,
                                     AiSummary(db.healthLogs, db.transactions, db.tasks, monthStart, fmt))
              && db.reviews == old(db.reviews) + [review]
  {
    var weekStart := WeekStart(today);

    var existing := FirstIndex(db.reviews, (r: WeeklyReview) => IsReviewOf(r, weekStart));
    if existing.Some? {
      return db.reviews[existing.value];
    }

    var aiSummary := SummarizeWeek(db.healthLogs, db.transactions, db.tasks, monthStart, fmt);
    review := InsertReview(db, today, aiSummary);
  }

  /** Inserts the current user's review of the week holding `today`, with the
      fixed scores and `aiSummary`. */
  method InsertReview(db: Db, today: Date, aiSummary: string) returns (review: WeeklyReview)
    requires db.Valid()
    requires forall r :: r in db.reviews ==> !IsReviewOf(r, WeekStart(today))
    modifies db`reviews, db`nextReviewId
    ensures db.Valid()
    ensures review == NewReview(old(db.nextReviewId), today, aiSummary)
    ensures db.reviews == old(db.reviews) + [review]
  {
    var weekStart := WeekStart(today);
    var weekEnd := WeekEnd(today);
    var globalScore := (HealthScore + WealthScore + RelationshipScore + ProductivityScore) / 4.0;
    review := WeeklyReview(db.nextReviewId, CurrentUser, weekStart, weekEnd,
                           HealthScore, WealthScore, RelationshipScore, ProductivityScore,
                           globalScore, None, None, Some(aiSummary));
    ReviewsWellFormedAppend(db.reviews, review);
    db.reviews := db.reviews + [review];
    db.nextReviewId := db.nextReviewId + 1;
  }

  /** Generating twice in one week, on any two days of it, inserts one review
      and returns it both times. */
  method GenerateTwiceInOneWeek(db: Db, day1: Date, day2: Date, monthStart: Date, fmt: (real, nat) -> string)
    returns (first: WeeklyReview, second: WeeklyReview)
    requires db.Valid()
    requires WeekStart(day1) <= day2 <= WeekEnd(day1)
    modifies db`reviews, db`nextReviewId
    ensures db.Valid()
    ensures first == second
    ensures second in db.reviews && IsReviewOf(second, WeekStart(day1))
    ensures |db.reviews| <= |old(db.reviews)| + 1
    ensures forall i, j ::
              && 0 <= i < |db.reviews| && 0 <= j < |db.reviews|
              && IsReviewOf(db.reviews[i], WeekStart(day1)) && IsReviewOf(db.reviews[j], WeekStart(day1))
              ==> i == j
  {
    SameWeekSameStart(day1, day2);
    first := GenerateWeeklyReview(db, day1, monthStart, fmt);
    second := GenerateWeeklyReview(db, day2, monthStart, fmt);
    ghost var k1 :| 0 <= k1 < |db.reviews| && db.reviews[k1] == first;
    ghost var k2 :| 0 <= k2 < |db.reviews| && db.reviews[k2] == second;
    assert ReviewsWellFormed(db.reviews);
    assert k1 == k2;
  }

  /** `ORDER BY week_start_date DESC`: `a` may be listed before `b`. */
  predicate WeekNoEarlier(a: WeeklyReview, b: WeeklyReview)
  {
    a.weekStart >= b.weekStart
  }

  lemma WeekNoEarlierIsTotalPreorder()
    ensures TotalPreorder(WeekNoEarlier)
  {
  }

  /** `ORDER BY week_start_date DESC` applied to `reviews`. */
  function SortReviews(reviews: seq<WeeklyReview>): (r: seq<WeeklyReview>)
    ensures multiset(r) == multiset(reviews)
    ensures forall i, j :: 0 <= i < j < |r| ==> r[i].weekStart >= r[j].weekStart
  {
    WeekNoEarlierIsTotalPreorder();
    var r := SortBy(reviews, WeekNoEarlier);
    assert forall i, j :: 0 <= i < j < |r| ==> WeekNoEarlier(r[i], r[j]);
    r
  }

  /** The current user's reviews, newest week first. */
  function GetReviews(db: Db): (r: seq<WeeklyReview>)
    reads db
    ensures forall x :: multiset(r)[x] == if x.userId == CurrentUser then multiset(db.reviews)[x] else 0
    ensures forall i, j :: 0 <= i < j < |r| ==> r[i].weekStart >= r[j].weekStart
  {
    var mine := (x: WeeklyReview) => x.userId == CurrentUser;
    var r := SortReviews(Filter(db.reviews, mine));
    assert forall x :: multiset(r)[x] == if mine(x) then multiset(db.reviews)[x] else 0 by {
      forall x ensures multiset(r)[x] == if mine(x) then multiset(db.reviews)[x] else 0 {
        FilterMultiset(db.reviews, mine, x);
      }
    }
    r
  }

  /** In a table with one review per (user, week), a review occurs at most once. */
  lemma {:induction false} ReviewOccursOnce(reviews: seq<WeeklyReview>, x: WeeklyReview)
    requires ReviewsWellFormed(reviews)
    ensures multiset(reviews)[x] <= 1
    decreases |reviews|
  {
    if reviews != [] {
      var init := reviews[..|reviews| - 1];
      assert reviews == init + [reviews[|reviews| - 1]];
      assert ReviewsWellFormed(init);
      ReviewOccursOnce(init, x);
      if reviews[|reviews| - 1] == x {
        assert x !in init;
      }
    }
  }

  /** Under the table's invariant a user's week has one review. */
  lemma SameWeekSameReview(reviews: seq<WeeklyReview>, x: WeeklyReview, y: WeeklyReview)
    requires ReviewsWellFormed(reviews)
    requires x in reviews && y in reviews
    requires x.userId == y.userId && x.weekStart == y.weekStart
    ensures x == y
  {
    var a :| 0 <= a < |reviews| && reviews[a] == x;
    var b :| 0 <= b < |reviews| && reviews[b] == y;
    assert a == b;
  }

  /** A value found at two positions of a sequence occurs there twice. */
  lemma TwoPositions<T>(s: seq<T>, i: nat, j: nat)
    requires i < j < |s| && s[i] == s[j]
    ensures multiset(s)[s[i]] >= 2
  {
    assert s == s[..j] + s[j..];
    assert s[i] in s[..j] && s[j] in s[j..];
  }

  /** Under the table's invariant the listing goes strictly back in time: one
      review per week. */
  lemma ReviewsStrictlyNewestFirst(db: Db)
    requires db.Valid()
    ensures var r := GetReviews(db);
      forall i, j :: 0 <= i < j < |r| ==> r[i].weekStart > r[j].weekStart
  {
    var r := GetReviews(db);
    forall i, j | 0 <= i < j < |r| ensures r[i].weekStart > r[j].weekStart {
      if r[i].weekStart == r[j].weekStart {
        assert r[i] in multiset(r) && r[j] in multiset(r);
        SameWeekSameReview(db.reviews, r[i], r[j]);
        TwoPositions(r, i, j);
        ReviewOccursOnce(db.reviews, r[i]);
        assert false;
      }
    }
  }
}
