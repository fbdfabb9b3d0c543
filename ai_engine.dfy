/** The rule-based insight engine: a sleep and mood correlation over the most
    recent health logs, a spend check over the month's expenses and a backlog
    check over pending tasks. Database reads become the table contents passed
    in; the messages are `Insight` values carrying their numbers. */
module AiEngine {
  import opened Wrappers
  import opened Calendar
  import opened Seqs
  import opened Records

  /** How many of the newest health logs the correlation looks at. */
  const RecentWindow: nat := 30
  /** Fewer logs than this and there is not enough data. */
  const MinLogs: nat := 5
  /** Nights of at least this many hours count as good sleep. */
  const GoodSleepHours: real := 7.0
  /** A gap in mean mood above this is significant. */
  const MoodGap: real := 1.0
  /** A month's spend above this draws a message. */
  const SpendThreshold: real := 2000.0
  /** More pending tasks than this draws a message. */
  const BacklogThreshold: nat := 5

  /** The messages the engine can produce, with the numbers they cite. */
  datatype Insight =
    | NotEnoughData
    | KeepTracking
    | SignificantlyBetter(avgGood: real, avgBad: real)
    | SlightlyHappier
    | NoStrongEffect
    | HighSpending(total: real)
    | TaskBacklog(pending: nat)
  {
    /** One of the five outcomes of the sleep and mood correlation. */
    predicate IsSleepMood()
    {
      !HighSpending? && !TaskBacklog?
    }
  }

  // ------------------------------------------------------------ the window

  /** `ORDER BY date DESC`: `a` may be listed before `b`. */
  predicate NewerOrSame(a: HealthLog, b: HealthLog)
  {
    a.date >= b.date
  }

  lemma NewestFirstIsTotalPreorder()
    ensures TotalPreorder(NewerOrSame)
  {
  }

  /** The health logs of `user`, in table order. */
  function UserLogs(logs: seq<HealthLog>, user: int): (r: seq<HealthLog>)
    ensures forall l :: l in r <==> l in logs && l.userId == user
  {
    Filter(logs, (l: HealthLog) => l.userId == user)
  }

  /** The log count the not-enough-data rule compares, before the window's
      cap, is the number of the user's rows. */
  lemma {:induction false} UserLogsCount(logs: seq<HealthLog>, user: int)
    ensures |UserLogs(logs, user)| == |set i | 0 <= i < |logs| && logs[i].userId == user|
    decreases |logs|
  {
    if logs != [] {
      var init := logs[..|logs| - 1];
      UserLogsCount(init, user);
      var before := set i | 0 <= i < |init| && init[i].userId == user;
      var after := set i | 0 <= i < |logs| && logs[i].userId == user;
      if logs[|logs| - 1].userId == user {
        assert after == before + {|logs| - 1};
      } else {
        assert after == before;
      }
    }
  }

  /** `ORDER BY date DESC` applied to `logs`. */
  function NewestFirst(logs: seq<HealthLog>): (r: seq<HealthLog>)
    ensures multiset(r) == multiset(logs)
    ensures forall i, j :: 0 <= i < j < |r| ==> r[i].date >= r[j].date
  {
    NewestFirstIsTotalPreorder();
    var r := SortBy(logs, NewerOrSame);
    assert forall i, j :: 0 <= i < j < |r| ==> NewerOrSame(r[i], r[j]);
    r
  }

  /** The query `WHERE user_id = user ORDER BY date DESC LIMIT 30`. Which of
      several logs sharing the oldest kept date are kept is unspecified. */
  function Recent(logs: seq<HealthLog>, user: int): (r: seq<HealthLog>)
    ensures |r| == if |UserLogs(logs, user)| < RecentWindow then |UserLogs(logs, user)| else RecentWindow
  {
    var sorted := NewestFirst(UserLogs(logs, user));
    assert |sorted| == |multiset(sorted)|;
    sorted[..if |sorted| < RecentWindow then |sorted| else RecentWindow]
  }

  /** The window holds logs of the user only, and with at most 30 of them it
      holds them all. */
  lemma RecentKeepsUserLogs(logs: seq<HealthLog>, user: int)
    ensures var r, mine := Recent(logs, user), UserLogs(logs, user);
      && multiset(r) <= multiset(mine)
      && (|mine| <= RecentWindow ==> multiset(r) == multiset(mine))
  {
    var sorted := NewestFirst(UserLogs(logs, user));
    assert |sorted| == |multiset(sorted)|;
    var n := if |sorted| < RecentWindow then |sorted| else RecentWindow;
    var r := sorted[..n];
    assert r == Recent(logs, user);
    assert sorted == r + sorted[n..];
    assert multiset(sorted) == multiset(r) + multiset(sorted[n..]);
  }

  /** The window lists the newest log first. */
  lemma RecentNewestFirst(logs: seq<HealthLog>, user: int)
    ensures var r := Recent(logs, user);
      forall i, j :: 0 <= i < j < |r| ==> r[i].date >= r[j].date
  {
    var sorted := NewestFirst(UserLogs(logs, user));
    assert |sorted| == |multiset(sorted)|;
    var n := if |sorted| < RecentWindow then |sorted| else RecentWindow;
    assert sorted[..n] == Recent(logs, user);
  }

  /** In a list sorted newest first, whatever follows the first `n` entries is
      no newer than any of them. */
  lemma PrefixIsNewest(sorted: seq<HealthLog>, n: nat)
    requires n <= |sorted|
    requires forall i, j :: 0 <= i < j < |sorted| ==> sorted[i].date >= sorted[j].date
    ensures forall x, y :: x in sorted[..n] && y in multiset(sorted) - multiset(sorted[..n]) ==> y.date <= x.date
  {
    assert sorted == sorted[..n] + sorted[n..];
    assert multiset(sorted) - multiset(sorted[..n]) == multiset(sorted[n..]);
    forall x, y | x in sorted[..n] && y in multiset(sorted[n..]) ensures y.date <= x.date {
      var i :| 0 <= i < n && sorted[..n][i] == x;
      var j :| 0 <= j < |sorted| - n && sorted[n..][j] == y;
      assert sorted[i] == x && sorted[n + j] == y;
    }
  }

  /** Every log of the user the window leaves out is no newer than any it keeps. */
  lemma RecentLeavesOutOlder(logs: seq<HealthLog>, user: int)
    ensures var r, mine := Recent(logs, user), UserLogs(logs, user);
      forall x, y :: x in r && y in multiset(mine) - multiset(r) ==> y.date <= x.date
  {
    var sorted := NewestFirst(UserLogs(logs, user));
    assert |sorted| == |multiset(sorted)|;
    var n := if |sorted| < RecentWindow then |sorted| else RecentWindow;
    assert sorted[..n] == Recent(logs, user);
    PrefixIsNewest(sorted, n);
  }

  // ----------------------------------------------------------- the buckets

  /** Python truthiness of both columns: NULL, 0.0 hours and a mood of 0 all
      keep a log out of both buckets. */
  predicate Qualifies(l: HealthLog)
  {
    l.sleepHours.Some? && l.sleepHours.value != 0.0 && l.moodScore.Some? && l.moodScore.value != 0
  }

  /** Whether `l` goes into the good-sleep bucket (`good`) or the other one. */
  predicate InBucket(l: HealthLog, good: bool)
  {
    Qualifies(l) && (l.sleepHours.value >= GoodSleepHours) == good
  }

  /** The moods appended to one bucket while scanning `logs` in order. */
  function Bucket(logs: seq<HealthLog>, good: bool): (r: seq<int>)
    ensures |r| <= |logs|
    ensures forall i :: 0 <= i < |r| ==> r[i] != 0
    decreases |logs|
  {
    if logs == [] then []
    else
      var l := logs[|logs| - 1];
      Bucket(logs[..|logs| - 1], good) + (if InBucket(l, good) then [l.moodScore.value] else [])
  }

  /** `sum(moods) / len(moods)`. */
  function Mean(moods: seq<int>): (r: real)
    requires |moods| > 0
    ensures r * |moods| as real == SumInt(moods) as real
  {
    SumInt(moods) as real / |moods| as real
  }

  /** The mean lies between the lowest and the highest mood of the bucket. */
  lemma MeanWithinMoods(moods: seq<int>)
    requires |moods| > 0
    ensures exists i :: 0 <= i < |moods| && moods[i] as real <= Mean(moods)
    ensures exists i :: 0 <= i < |moods| && Mean(moods) <= moods[i] as real
  {
    SomeAtMost(moods, Mean(moods));
    SomeAtLeast(moods, Mean(moods));
  }

  /** The three-way comparison of the two bucket means. */
  function CompareMeans(avgGood: real, avgBad: real): (r: Insight)
    ensures r.IsSleepMood()
    ensures r.SignificantlyBetter? <==> avgGood > avgBad + MoodGap
    ensures r.SignificantlyBetter? ==> r.avgGood == avgGood && r.avgBad == avgBad
    ensures r == SlightlyHappier <==> avgBad < avgGood <= avgBad + MoodGap
    ensures r == NoStrongEffect <==> avgGood <= avgBad
  {
    if avgGood > avgBad + MoodGap then SignificantlyBetter(avgGood, avgBad)
    else if avgGood > avgBad then SlightlyHappier
    else NoStrongEffect
  }

  /** What the correlation says about a window of logs. */
  function SleepMoodVerdict(window: seq<HealthLog>): (r: Insight)
    ensures r.IsSleepMood()
  {
    if |window| < MinLogs then NotEnoughData
    else
      var good := Bucket(window, true);
      var bad := Bucket(window, false);
      if good == [] || bad == [] then KeepTracking
      else CompareMeans(Mean(good), Mean(bad))
  }

  /** The sleep and mood correlation for `userId`, scanning the window once and
      appending each qualifying mood to its bucket. */
  method AnalyzeSleepMood(healthLogs: seq<HealthLog>, userId: int) returns (insight: Insight)
    ensures insight == SleepMoodVerdict(Recent(healthLogs, userId))
  {
    var logs := Recent(healthLogs, userId);
    if |logs| < MinLogs {
      return NotEnoughData;
    }

    var goodSleepMood: seq<int> := [];
    var badSleepMood: seq<int> := [];
    for i := 0 to |logs|
      invariant goodSleepMood == Bucket(logs[..i], true)
      invariant badSleepMood == Bucket(logs[..i], false)
    {
      var log := logs[i];
      assert logs[..i + 1][..i] == logs[..i];
      if log.sleepHours.Some? && log.sleepHours.value != 0.0 && log.moodScore.Some? && log.moodScore.value != 0 {
        if log.sleepHours.value >= GoodSleepHours {
          goodSleepMood := goodSleepMood + [log.moodScore.value];
        } else {
          badSleepMood := badSleepMood + [log.moodScore.value];
        }
      }
    }
    assert logs[..|logs|] == logs;

    if goodSleepMood == [] || badSleepMood == [] {
      return KeepTracking;
    }

    var avgGood := SumInt(goodSleepMood) as real / |goodSleepMood| as real;
    var avgBad := SumInt(badSleepMood) as real / |badSleepMood| as real;
    assert SleepMoodVerdict(logs) == CompareMeans(avgGood, avgBad);

    if avgGood > avgBad + MoodGap {
      insight := SignificantlyBetter(avgGood, avgBad);
    } else if avgGood > avgBad {
      insight := SlightlyHappier;
    } else {
      insight := NoStrongEffect;
    }
  }

  // ------------------------------------------- properties of the correlation

  /** With at least five logs in the window, the keep-tracking message comes
      exactly when one of the two buckets is empty. */
  lemma KeepTrackingExactly(window: seq<HealthLog>)
    requires |window| >= MinLogs
    ensures SleepMoodVerdict(window) == KeepTracking <==> Bucket(window, true) == [] || Bucket(window, false) == []
  {
  }

  /** Fewer than five logs for the user, whatever they hold, and only then, give
      the not-enough-data message. */
  lemma InsufficientData(logs: seq<HealthLog>, user: int)
    ensures SleepMoodVerdict(Recent(logs, user)) == NotEnoughData <==> |UserLogs(logs, user)| < MinLogs
  {
  }

  lemma {:induction false} BucketConcat(a: seq<HealthLog>, b: seq<HealthLog>, good: bool)
    ensures Bucket(a + b, good) == Bucket(a, good) + Bucket(b, good)
    decreases |b|
  {
    if b == [] {
      assert a + b == a;
    } else {
      var b' := b[..|b| - 1];
      assert (a + b)[..|a + b| - 1] == a + b';
      BucketConcat(a, b', good);
    }
  }

  /** Every qualifying log lands in exactly one bucket: the bucket sizes add up
      to the number of qualifying logs. */
  lemma {:induction false} BucketsPartition(logs: seq<HealthLog>)
    ensures |Bucket(logs, true)| + |Bucket(logs, false)| == |Filter(logs, Qualifies)|
    decreases |logs|
  {
    if logs != [] {
      BucketsPartition(logs[..|logs| - 1]);
    }
  }

  /** A log with a missing or zero sleep time or mood changes neither bucket,
      wherever it stands in the window. */
  lemma UnqualifiedLogIgnored(a: seq<HealthLog>, l: HealthLog, b: seq<HealthLog>, good: bool)
    requires !Qualifies(l)
    ensures Bucket(a + [l] + b, good) == Bucket(a + b, good)
  {
    BucketConcat(a + [l], b, good);
    BucketConcat(a, [l], good);
    BucketConcat(a, b, good);
    assert [l][..0] == [];
  }

  /** A bucket holds the same moods however the window is ordered. */
  lemma {:induction false} BucketPermutation(a: seq<HealthLog>, b: seq<HealthLog>, good: bool)
    requires multiset(a) == multiset(b)
    ensures multiset(Bucket(a, good)) == multiset(Bucket(b, good))
    decreases |a|
  {
    if a != [] {
      var x := a[|a| - 1];
      var a' := a[..|a| - 1];
      assert a == a' + [x];
      assert x in multiset(b);
      var j :| 0 <= j < |b| && b[j] == x;
      var b' := b[..j] + b[j + 1..];
      assert b == b[..j] + [x] + b[j + 1..];
      assert multiset(b) == multiset(b[..j]) + multiset{x} + multiset(b[j + 1..]);
      assert multiset(b') == multiset(b[..j]) + multiset(b[j + 1..]);
      assert multiset(a) == multiset(a') + multiset{x};
      assert multiset(a') == multiset(a) - multiset{x};
      assert multiset(b') == multiset(b) - multiset{x};
      BucketPermutation(a', b', good);
      BucketConcat(b[..j] + [x], b[j + 1..], good);
      BucketConcat(b[..j], [x], good);
      BucketConcat(b[..j], b[j + 1..], good);
      BucketConcat(a', [x], good);
    }
  }

  /** The verdict depends only on which logs are in the window, not on their
      order, so ties in the date ordering matter only at the window's edge. */
  lemma VerdictOrderInsensitive(w1: seq<HealthLog>, w2: seq<HealthLog>)
    requires multiset(w1) == multiset(w2)
    ensures SleepMoodVerdict(w1) == SleepMoodVerdict(w2)
  {
    assert |w1| == |multiset(w1)| == |multiset(w2)| == |w2|;
    forall good: bool
      ensures |Bucket(w1, good)| == |Bucket(w2, good)|
      ensures SumInt(Bucket(w1, good)) == SumInt(Bucket(w2, good))
    {
      BucketPermutation(w1, w2, good);
      assert |Bucket(w1, good)| == |multiset(Bucket(w1, good))|;
      assert |Bucket(w2, good)| == |multiset(Bucket(w2, good))|;
      SumIntPermutation(Bucket(w1, good), Bucket(w2, good));
    }
  }

  /** Multiplying both sides by a positive number keeps a strict comparison. */
  lemma ScaleKeepsOrder(a: real, c: real, k: real)
    requires k > 0.0
    ensures a > c <==> a * k > c * k
  {
    if a > c {
      assert (a - c) * k > 0.0;
    } else {
      assert (c - a) * k >= 0.0;
    }
  }

  /** `g/ng > b/nb + gap` compared without division. */
  lemma CrossMultiply(g: real, ng: real, b: real, nb: real, gap: real)
    requires ng > 0.0 && nb > 0.0
    ensures g / ng > b / nb + gap <==> g * nb > b * ng + gap * (ng * nb)
  {
    var x, y := g / ng, b / nb;
    assert ng * nb > 0.0;
    ScaleKeepsOrder(x, y + gap, ng * nb);
    assert x * (ng * nb) == g * nb by {
      assert x * ng == g;
    }
    assert (y + gap) * (ng * nb) == b * ng + gap * (ng * nb) by {
      assert y * nb == b;
    }
  }

  /** An integer product read as a real is the product of the reals. */
  lemma {:induction false} CastProduct(a: int, n: nat)
    ensures (a * n) as real == a as real * n as real
  {
    if n > 0 {
      CastProduct(a, n - 1);
      assert a * n == a * (n - 1) + a;
    }
  }

  /** The same comparison for integer sums, counts and gap. */
  lemma CrossMultiplyInt(g: int, ng: nat, b: int, nb: nat, gap: int)
    requires ng > 0 && nb > 0
    ensures g as real / ng as real > b as real / nb as real + gap as real
        <==> g * nb > b * ng + gap * (ng * nb)
  {
    CrossMultiply(g as real, ng as real, b as real, nb as real, gap as real);
    CastProduct(g, nb);
    CastProduct(b, ng);
    CastProduct(ng, nb);
    CastProduct(gap, ng * nb);
  }

  /** Comparing two means is comparing cross-multiplied integer sums. */
  lemma MeansByCrossMultiplication(good: seq<int>, bad: seq<int>)
    requires |good| > 0 && |bad| > 0
    ensures Mean(good) > Mean(bad) + MoodGap
        <==> SumInt(good) * |bad| > SumInt(bad) * |good| + |good| * |bad|
    ensures Mean(good) > Mean(bad) <==> SumInt(good) * |bad| > SumInt(bad) * |good|
  {
    CrossMultiplyInt(SumInt(good), |good|, SumInt(bad), |bad|, 1);
    CrossMultiplyInt(SumInt(good), |good|, SumInt(bad), |bad|, 0);
  }

  /** With both buckets filled, the three outcomes in integer terms: with sums
      G, B and sizes g, b, significant iff G*b > B*g + g*b, slightly happier iff
      B*g < G*b <= B*g + g*b, neutral iff G*b <= B*g (so equal means are neutral). */
  lemma VerdictByCrossMultiplication(window: seq<HealthLog>)
    requires |window| >= MinLogs
    requires Bucket(window, true) != [] && Bucket(window, false) != []
    ensures var good, bad := Bucket(window, true), Bucket(window, false);
      var G, B, ng, nb := SumInt(good), SumInt(bad), |good|, |bad|;
      SleepMoodVerdict(window) == SignificantlyBetter(Mean(good), Mean(bad)) <==> G * nb > B * ng + ng * nb
    ensures var G, B, ng, nb := SumInt(Bucket(window, true)), SumInt(Bucket(window, false)),
                                |Bucket(window, true)|, |Bucket(window, false)|;
      SleepMoodVerdict(window) == SlightlyHappier <==> B * ng < G * nb <= B * ng + ng * nb
    ensures var G, B, ng, nb := SumInt(Bucket(window, true)), SumInt(Bucket(window, false)),
                                |Bucket(window, true)|, |Bucket(window, false)|;
      SleepMoodVerdict(window) == NoStrongEffect <==> G * nb <= B * ng
  {
    MeansByCrossMultiplication(Bucket(window, true), Bucket(window, false));
  }

  /** When the good-sleep moods are the same moods as the other bucket's, the
      verdict is neutral, never the significant one. */
  lemma SameMoodsNoEffect(window: seq<HealthLog>)
    requires |window| >= MinLogs
    requires Bucket(window, true) != []
    requires multiset(Bucket(window, true)) == multiset(Bucket(window, false))
    ensures SleepMoodVerdict(window) == NoStrongEffect
  {
    var good, bad := Bucket(window, true), Bucket(window, false);
    assert |good| == |multiset(good)| == |multiset(bad)| == |bad|;
    SumIntPermutation(good, bad);
  }

  /** A window of logs that all land in one bucket with one mood. */
  lemma {:induction false} UniformBucket(w: seq<HealthLog>, good: bool, mood: int)
    requires forall l :: l in w ==> InBucket(l, good) && l.moodScore.value == mood
    ensures Bucket(w, good) == seq(|w|, _ => mood)
    ensures Bucket(w, !good) == []
    decreases |w|
  {
    if w != [] {
      var w' := w[..|w| - 1];
      assert forall l :: l in w' ==> l in w;
      assert w[|w| - 1] in w;
      UniformBucket(w', good, mood);
    }
  }

  lemma {:induction false} SumOfCopies(n: nat, m: int)
    ensures SumInt(seq(n, _ => m)) == n * m
  {
    if n > 0 {
      assert seq(n, _ => m)[..n - 1] == seq(n - 1, _ => m);
      SumOfCopies(n - 1, m);
    }
  }

  /** Six nights of 8 hours with mood 9 and four nights of 5 hours with mood 4,
      in any order and on any dates: means 9.0 and 4.0, a gap of 5.0, so the
      significant message citing both. */
  lemma SignificantScenario(logs: seq<HealthLog>, user: int, rested: seq<HealthLog>, tired: seq<HealthLog>)
    requires |rested| == 6 && |tired| == 4
    requires forall l :: l in rested ==> l.sleepHours == Some(8.0) && l.moodScore == Some(9)
    requires forall l :: l in tired ==> l.sleepHours == Some(5.0) && l.moodScore == Some(4)
    requires multiset(UserLogs(logs, user)) == multiset(rested + tired)
    ensures SleepMoodVerdict(Recent(logs, user)) == SignificantlyBetter(9.0, 4.0)
  {
    assert |UserLogs(logs, user)| == |multiset(rested + tired)| == 10;
    RecentKeepsUserLogs(logs, user);
    VerdictOrderInsensitive(Recent(logs, user), rested + tired);
    ScenarioVerdict(rested, tired);
  }

  /** The scenario's ten nights, listed rested first. */
  lemma ScenarioVerdict(rested: seq<HealthLog>, tired: seq<HealthLog>)
    requires |rested| == 6 && |tired| == 4
    requires forall l :: l in rested ==> l.sleepHours == Some(8.0) && l.moodScore == Some(9)
    requires forall l :: l in tired ==> l.sleepHours == Some(5.0) && l.moodScore == Some(4)
    ensures SleepMoodVerdict(rested + tired) == SignificantlyBetter(9.0, 4.0)
  {
    ScenarioBuckets(rested, tired);
    SumOfCopies(6, 9);
    SumOfCopies(4, 4);
  }

  /** The scenario's buckets: six moods of 9 and four moods of 4. */
  lemma ScenarioBuckets(rested: seq<HealthLog>, tired: seq<HealthLog>)
    requires |rested| == 6 && |tired| == 4
    requires forall l :: l in rested ==> l.sleepHours == Some(8.0) && l.moodScore == Some(9)
    requires forall l :: l in tired ==> l.sleepHours == Some(5.0) && l.moodScore == Some(4)
    ensures Bucket(rested + tired, true) == seq(6, _ => 9)
    ensures Bucket(rested + tired, false) == seq(4, _ => 4)
  {
    UniformBucket(rested, true, 9);
    UniformBucket(tired, false, 4);
    BucketConcat(rested, tired, true);
    BucketConcat(rested, tired, false);
  }

  // --------------------------------------------------------- weekly insights

  /** The messages of one run, in order. */
  function WeeklyInsights(healthLogs: seq<HealthLog>, txs: seq<Transaction>, tasks: seq<Task>,
                          user: int, monthStart: Date): (r: seq<Insight>)
    ensures 1 <= |r| <= 3
  {
    var total := MonthExpenseTotal(txs, user, monthStart);
    var pending := |PendingTasks(tasks, user)|;
    [SleepMoodVerdict(Recent(healthLogs, user))]
      + (if total > SpendThreshold then [HighSpending(total)] else [])
      + (if pending > BacklogThreshold then [TaskBacklog(pending)] else [])
  }

  /** The sleep and mood message always comes first and alone of its kind; the
      spend message appears exactly when the month's expenses exceed 2000 and
      cites their total; the backlog message appears exactly when more than five
      tasks are pending and cites their number; spend comes before backlog. */
  lemma WeeklyInsightsContents(healthLogs: seq<HealthLog>, txs: seq<Transaction>, tasks: seq<Task>,
                               user: int, monthStart: Date)
    ensures var r := WeeklyInsights(healthLogs, txs, tasks, user, monthStart);
      r[0] == SleepMoodVerdict(Recent(healthLogs, user))
    ensures var r := WeeklyInsights(healthLogs, txs, tasks, user, monthStart);
      forall i :: 1 <= i < |r| ==> !r[i].IsSleepMood()
    ensures var r := WeeklyInsights(healthLogs, txs, tasks, user, monthStart);
      forall i, j :: 1 <= i < j < |r| ==> r[i].HighSpending? && r[j].TaskBacklog?
    ensures var r, total := WeeklyInsights(healthLogs, txs, tasks, user, monthStart), MonthExpenseTotal(txs, user, monthStart);
      && (HighSpending(total) in r <==> total > SpendThreshold)
      && (forall m :: m in r && m.HighSpending? ==> m == HighSpending(total))
    ensures var r, pending := WeeklyInsights(healthLogs, txs, tasks, user, monthStart), |PendingTasks(tasks, user)|;
      && (TaskBacklog(pending) in r <==> pending > BacklogThreshold)
      && (forall m :: m in r && m.TaskBacklog? ==> m == TaskBacklog(pending))
  {
    var total := MonthExpenseTotal(txs, user, monthStart);
    var pending := |PendingTasks(tasks, user)|;
    var sleep := SleepMoodVerdict(Recent(healthLogs, user));
    var r := WeeklyInsights(healthLogs, txs, tasks, user, monthStart);
    if total > SpendThreshold {
      if pending > BacklogThreshold {
        assert r == [sleep, HighSpending(total), TaskBacklog(pending)];
      } else {
        assert r == [sleep, HighSpending(total)];
      }
    } else {
      if pending > BacklogThreshold {
        assert r == [sleep, TaskBacklog(pending)];
      } else {
        assert r == [sleep];
      }
    }
  }

  /** Runs the three checks and appends their messages as it goes. */
  method GenerateWeeklyInsights(healthLogs: seq<HealthLog>, txs: seq<Transaction>, tasks: seq<Task>,
                                user: int, monthStart: Date) returns (insights: seq<Insight>)
    ensures insights == WeeklyInsights(healthLogs, txs, tasks, user, monthStart)
  {
    insights := [];

    var sleepInsight := AnalyzeSleepMood(healthLogs, user);
    insights := insights + [sleepInsight];

    var totalSpent := MonthExpenseTotal(txs, user, monthStart);
    if totalSpent > SpendThreshold {
      insights := insights + [HighSpending(totalSpent)];
    }

    var pendingTasks := |PendingTasks(tasks, user)|;
    if pendingTasks > BacklogThreshold {
      insights := insights + [TaskBacklog(pendingTasks)];
    }
  }

  /** Four expenses of the month add up to their amounts' sum. */
  lemma FourExpensesTotal(a: Transaction, b: Transaction, c: Transaction, e: Transaction, user: int, monthStart: Date)
    requires IsMonthExpense(a, user, monthStart) && IsMonthExpense(b, user, monthStart)
    requires IsMonthExpense(c, user, monthStart) && IsMonthExpense(e, user, monthStart)
    ensures MonthExpenseTotal([a, b, c, e], user, monthStart) == a.amount + b.amount + c.amount + e.amount
  {
    MonthExpenseTotalAppend([], a, user, monthStart);
    assert [] + [a] == [a];
    MonthExpenseTotalAppend([a], b, user, monthStart);
    assert [a] + [b] == [a, b];
    MonthExpenseTotalAppend([a, b], c, user, monthStart);
    assert [a, b] + [c] == [a, b, c];
    MonthExpenseTotalAppend([a, b, c], e, user, monthStart);
    assert [a, b, c] + [e] == [a, b, c, e];
  }

  /** Expenses of 500, 600, 700 and 300 this month (2100 in all) draw the spend
      message citing 2100. */
  lemma SpendOverThreshold(healthLogs: seq<HealthLog>, tasks: seq<Task>, user: int, monthStart: Date,
                           d: seq<Date>)
    requires |d| == 4 && forall i :: 0 <= i < 4 ==> d[i] >= monthStart
    ensures var month := [Transaction(user, d[0], 500.0, "expense", "Food"), Transaction(user, d[1], 600.0, "expense", "Rent"),
                          Transaction(user, d[2], 700.0, "expense", "Travel"), Transaction(user, d[3], 300.0, "expense", "Fun")];
      HighSpending(2100.0) in WeeklyInsights(healthLogs, month, tasks, user, monthStart)
  {
    var a := Transaction(user, d[0], 500.0, "expense", "Food");
    var b := Transaction(user, d[1], 600.0, "expense", "Rent");
    var c := Transaction(user, d[2], 700.0, "expense", "Travel");
    var e := Transaction(user, d[3], 300.0, "expense", "Fun");
    FourExpensesTotal(a, b, c, e, user, monthStart);
    WeeklyInsightsContents(healthLogs, [a, b, c, e], tasks, user, monthStart);
  }

  /** A month of exactly 2000 (1500 and 500) draws no spend message: the
      threshold is strict. */
  lemma SpendAtThreshold(healthLogs: seq<HealthLog>, tasks: seq<Task>, user: int, monthStart: Date,
                         d: seq<Date>)
    requires |d| == 2 && d[0] >= monthStart && d[1] >= monthStart
    ensures var month := [Transaction(user, d[0], 1500.0, "expense", "Rent"), Transaction(user, d[1], 500.0, "expense", "Food")];
      forall m :: m in WeeklyInsights(healthLogs, month, tasks, user, monthStart) ==> !m.HighSpending?
  {
    var f := Transaction(user, d[0], 1500.0, "expense", "Rent");
    var g := Transaction(user, d[1], 500.0, "expense", "Food");
    MonthExpenseTotalAppend([], f, user, monthStart);
    assert [] + [f] == [f];
    MonthExpenseTotalAppend([f], g, user, monthStart);
    assert [f] + [g] == [f, g];
    assert MonthExpenseTotal([f, g], user, monthStart) == 2000.0;
    WeeklyInsightsContents(healthLogs, [f, g], tasks, user, monthStart);
  }

  /** Five pending tasks draw no backlog message; six draw one citing 6. */
  lemma BacklogBoundary(healthLogs: seq<HealthLog>, txs: seq<Transaction>, user: int, monthStart: Date,
                        tasks: seq<Task>)
    requires |PendingTasks(tasks, user)| == 5 || |PendingTasks(tasks, user)| == 6
    ensures |PendingTasks(tasks, user)| == 5 ==>
              forall m :: m in WeeklyInsights(healthLogs, txs, tasks, user, monthStart) ==> !m.TaskBacklog?
    ensures |PendingTasks(tasks, user)| == 6 ==>
              TaskBacklog(6) in WeeklyInsights(healthLogs, txs, tasks, user, monthStart)
  {
    WeeklyInsightsContents(healthLogs, txs, tasks, user, monthStart);
  }

  // ---------------------------------------------------------------- text

  /** The number a string of decimal digits denotes. */
  function DigitsValue(s: string): nat
    decreases |s|
  {
    if s == [] then 0
    else
      var c := s[|s| - 1];
      DigitsValue(s[..|s| - 1]) * 10 + (if '0' <= c <= '9' then (c - '0') as int else 0)
  }

  /** `str(n)` for a count: canonical decimal digits that read back as `n`. */
  function DecimalDigits(n: nat): (s: string)
    ensures |s| >= 1
    ensures forall c :: c in s ==> '0' <= c <= '9'
    ensures n > 0 ==> s[0] != '0'
    ensures DigitsValue(s) == n
    decreases n
  {
    var last := ['0' + (n % 10) as char];
    if n < 10 then last
    else
      var s := DecimalDigits(n / 10) + last;
      assert s[..|s| - 1] == DecimalDigits(n / 10);
      s
  }

  /** The message text; `fmt(x, k)` is Python's `f"{x:.kf}"`. */
  function Message(i: Insight, fmt: (real, nat) -> string): (s: string)
    ensures |s| > 0
    ensures i.TaskBacklog? ==>
              9 + |DecimalDigits(i.pending)| <= |s| && DigitsValue(s[9..9 + |DecimalDigits(i.pending)|]) == i.pending
  {
    match i
    case NotEnoughData => "Not enough data to analyze sleep patterns yet."
    case KeepTracking => "Keep tracking sleep and mood to see patterns."
    case SignificantlyBetter(g, b) =>
      "Your mood is significantly better (" + fmt(g, 1) + "/10) when you sleep 7+ hours compared to less ("
      + fmt(b, 1) + "/10)."
    case SlightlyHappier => "You tend to be slightly happier when you get enough sleep."
    case NoStrongEffect => "Your sleep duration doesn't seem to strongly affect your mood scores right now."
    case HighSpending(total) => "You've spent $" + fmt(total, 0) + " this month. Consider reviewing your budget."
    case TaskBacklog(n) => "You have " + DecimalDigits(n) + " pending tasks. Try clearing the quick wins first."
  }

  function Messages(insights: seq<Insight>, fmt: (real, nat) -> string): (r: seq<string>)
    ensures |r| == |insights|
    ensures forall i :: 0 <= i < |insights| ==> r[i] == Message(insights[i], fmt)
  {
    seq(|insights|, i requires 0 <= i < |insights| => Message(insights[i], fmt))
  }
}
