/** The progress screen: from the user's practice sessions it computes the
    session count, the rounded average score, the sessions of the past week,
    a seven-slot activity histogram (oldest day first, today last), the badge
    count, and the bar heights of the histogram. Times are integer
    milliseconds; a calendar day is a UTC day of 86 400 000 ms. */
module Progress {
  import opened Wrappers
  import opened JsMath

  const MsPerDay: int := 1000 * 60 * 60 * 24
  const Days: nat := 7

  /** A row of `practice_sessions`: its score, possibly null, and when it was
      completed. */
  datatype Session = Session(score: Option<int>, completedAt: int)

  /** `s.score || 0` */
  function ScoreOrZero(s: Session): int {
    match s.score
    case Some(v) => v
    case None => 0
  }

  /** The `reduce` over the sessions. */
  function ScoreSum(sessions: seq<Session>): int {
    if sessions == [] then 0
    else ScoreSum(sessions[..|sessions| - 1]) + ScoreOrZero(sessions[|sessions| - 1])
  }

  /** `Math.round(sum / totalSessions || 0)`: 0 when there are no sessions
      (0 / 0 is NaN, which is falsy), else the rounded mean. */
  function AverageScore(sessions: seq<Session>): (avg: int)
    ensures |sessions| == 0 ==> avg == 0
    ensures |sessions| > 0 ==>
      2 * |sessions| * avg <= 2 * ScoreSum(sessions) + |sessions| < 2 * |sessions| * avg + 2 * |sessions|
  {
    if |sessions| == 0 then 0 else RoundDiv(ScoreSum(sessions), |sessions|)
  }

  predicate ScoresWithin(sessions: seq<Session>, lo: int, hi: int) {
    forall i :: 0 <= i < |sessions| ==> lo <= ScoreOrZero(sessions[i]) <= hi
  }

  lemma {:induction false} SumWithin(sessions: seq<Session>, lo: int, hi: int)
    requires ScoresWithin(sessions, lo, hi)
    ensures |sessions| * lo <= ScoreSum(sessions) <= |sessions| * hi
  {
    if sessions != [] {
      var front := sessions[..|sessions| - 1];
      assert ScoresWithin(front, lo, hi);
      SumWithin(front, lo, hi);
    }
  }

  /** When every score lies in a range, so does the average: with scores out
      of 100 and missing ones counted as 0, the average is a percentage. */
  lemma AverageWithin(sessions: seq<Session>, lo: int, hi: int)
    requires |sessions| > 0 && ScoresWithin(sessions, lo, hi)
    ensures lo <= AverageScore(sessions) <= hi
  {
    SumWithin(sessions, lo, hi);
    RoundedMeanWithin(|sessions|, ScoreSum(sessions), AverageScore(sessions), lo, hi);
  }

  lemma RoundedMeanWithin(n: int, sum: int, avg: int, lo: int, hi: int)
    requires n > 0 && n * lo <= sum <= n * hi
    requires 2 * n * avg <= 2 * sum + n < 2 * n * avg + 2 * n
    ensures lo <= avg <= hi
  {
    if avg > hi {
      MulMono(n, hi + 1, avg);
      assert false;
    }
    if avg < lo {
      MulMono(n, avg + 1, lo);
      assert false;
    }
  }

  lemma MulMono(n: int, a: int, b: int)
    requires n > 0 && a <= b
    ensures 2 * n * a <= 2 * n * b && 2 * n * a == 2 * (n * (a - 1)) + 2 * n
  {
  }

  /** Calendar day of a time: the time at midnight, in whole days. */
  function DayNumber(t: int): int {
    t / MsPerDay
  }

  /** `Math.floor((today - sessionDate) / msPerDay)` with both dates set to
      midnight. */
  function DaysAgo(now: int, t: int): int {
    DayNumber(now) - DayNumber(t)
  }

  predicate InWindow(now: int, s: Session) {
    0 <= DaysAgo(now, s.completedAt) < Days
  }

  /** Number of sessions completed `d` days before today. */
  function CountOnDay(sessions: seq<Session>, now: int, d: int): nat {
    if sessions == [] then 0
    else
      var last := if DaysAgo(now, sessions[|sessions| - 1].completedAt) == d then 1 else 0;
      CountOnDay(sessions[..|sessions| - 1], now, d) + last
  }

  /** Number of sessions in the seven-day window ending today. */
  function CountInWindow(sessions: seq<Session>, now: int): nat {
    if sessions == [] then 0
    else CountInWindow(sessions[..|sessions| - 1], now) + (if InWindow(now, sessions[|sessions| - 1]) then 1 else 0)
  }

  /** `thisWeekSessions`: completed strictly after this time a week ago. */
  function ThisWeekCount(sessions: seq<Session>, now: int): (c: nat)
    ensures c <= |sessions|
  {
    if sessions == [] then 0
    else
      var last := if sessions[|sessions| - 1].completedAt > now - Days * MsPerDay then 1 else 0;
      ThisWeekCount(sessions[..|sessions| - 1], now) + last
  }

  /** The histogram the screen shows: slot `k` counts the sessions of
      `6 - k` days ago. */
  function Buckets(sessions: seq<Session>, now: int): (b: seq<int>)
    ensures |b| == Days
    ensures forall k :: 0 <= k < Days ==> b[k] >= 0
  {
    seq(Days, k requires 0 <= k < Days => CountOnDay(sessions, now, Days - 1 - k))
  }

  function WeekTotal(b: seq<int>): int
    requires |b| == Days
  {
    b[0] + b[1] + b[2] + b[3] + b[4] + b[5] + b[6]
  }

  /** The activity array, built in place as the source does. */
  method WeeklyActivity(sessions: seq<Session>, now: int) returns (activity: array<int>)
    ensures fresh(activity)
    ensures activity[..] == Buckets(sessions, now)
  {
    activity := new int[Days](_ => 0);
    var i := 0;
    while i < |sessions|
      invariant 0 <= i <= |sessions| && activity.Length == Days
      invariant forall k :: 0 <= k < Days ==> activity[k] == CountOnDay(sessions[..i], now, Days - 1 - k)
    {
      assert sessions[..i + 1][..i] == sessions[..i];
      var daysAgo := DaysAgo(now, sessions[i].completedAt);
      if 0 <= daysAgo < Days {
        activity[Days - 1 - daysAgo] := activity[Days - 1 - daysAgo] + 1;
      }
      i := i + 1;
    }
    assert sessions[..i] == sessions;
  }

  /** One session adds one to exactly the slot of its day when it falls in
      the window, and changes nothing otherwise. */
  lemma AddSession(sessions: seq<Session>, s: Session, now: int)
    ensures var before := Buckets(sessions, now);
      var after := Buckets(sessions + [s], now);
      var d := DaysAgo(now, s.completedAt);
      && (forall k :: 0 <= k < Days ==> after[k] == before[k] + (if k == Days - 1 - d then 1 else 0))
      && WeekTotal(after) == WeekTotal(before) + (if InWindow(now, s) then 1 else 0)
  {
    var before := Buckets(sessions, now);
    var after := Buckets(sessions + [s], now);
    var d := DaysAgo(now, s.completedAt);
    var all := sessions + [s];
    assert all[..|all| - 1] == sessions && all[|all| - 1] == s;
    forall k | 0 <= k < Days
      ensures after[k] == before[k] + (if k == Days - 1 - d then 1 else 0)
    {
      assert after[k] == CountOnDay(all, now, Days - 1 - k);
      assert before[k] == CountOnDay(sessions, now, Days - 1 - k);
    }
  }

  /** The histogram holds exactly the sessions of the window: today's in the
      last slot, six days ago in the first; future and older sessions are
      not counted. */
  lemma {:induction false} WeekTotalIsWindowCount(sessions: seq<Session>, now: int)
    ensures WeekTotal(Buckets(sessions, now)) == CountInWindow(sessions, now)
  {
    if sessions != [] {
      var front := sessions[..|sessions| - 1];
      var s := sessions[|sessions| - 1];
      WeekTotalIsWindowCount(front, now);
      AddSession(front, s, now);
      assert front + [s] == sessions;
    } else {
      var b := Buckets(sessions, now);
      assert forall k :: 0 <= k < Days ==> b[k] == CountOnDay(sessions, now, Days - 1 - k) == 0;
    }
  }

  /** Every session of the histogram's window also counts for "this week". */
  lemma {:induction false} WindowWithinThisWeek(sessions: seq<Session>, now: int)
    ensures CountInWindow(sessions, now) <= ThisWeekCount(sessions, now)
  {
    if sessions != [] {
      var front := sessions[..|sessions| - 1];
      var t := sessions[|sessions| - 1].completedAt;
      WindowWithinThisWeek(front, now);
      if InWindow(now, sessions[|sessions| - 1]) {
        DivBounds(now, MsPerDay);
        DivBounds(t, MsPerDay);
      }
    }
  }

  /** `Math.floor(totalSessions / 3)`: one badge per three sessions. */
  function Badges(totalSessions: nat): (badges: nat)
    ensures 3 * badges <= totalSessions < 3 * badges + 3
  {
    totalSessions / 3
  }

  /** `Math.max(...weeklyActivity, 1)` */
  function MaxActivity(activity: seq<int>): (m: int)
    ensures m >= 1
    ensures forall i :: 0 <= i < |activity| ==> activity[i] <= m
    ensures m == 1 || exists i :: 0 <= i < |activity| && activity[i] == m
  {
    if activity == [] then 1
    else
      var m := MaxActivity(activity[..|activity| - 1]);
      if activity[|activity| - 1] > m then activity[|activity| - 1] else m
  }

  /** The height, in percent, of the bar for slot `i`. */
  function BarHeight(activity: seq<int>, i: nat): (h: real)
    requires i < |activity|
    requires forall k :: 0 <= k < |activity| ==> activity[k] >= 0
    ensures 0.0 <= h <= 100.0
    ensures h == 0.0 <==> activity[i] == 0
    ensures h == 100.0 <==> activity[i] == MaxActivity(activity)
  {
    var m := MaxActivity(activity) as real;
    var x := activity[i] as real;
    Ratio(x, m);
    x / m * 100.0
  }

  lemma Ratio(x: real, m: real)
    requires 1.0 <= m && 0.0 <= x <= m
    ensures 0.0 <= x / m <= 1.0
    ensures x / m == 0.0 <==> x == 0.0
    ensures x / m == 1.0 <==> x == m
  {
    var q := x / m;
    assert q * m == x;
  }

  /** `height || 10`: an empty day still shows a stub of 10 percent. */
  function DisplayedHeight(activity: seq<int>, i: nat): (h: real)
    requires i < |activity|
    requires forall k :: 0 <= k < |activity| ==> activity[k] >= 0
    ensures 0.0 < h <= 100.0
    ensures activity[i] == 0 ==> h == 10.0
    ensures activity[i] != 0 ==> h == BarHeight(activity, i)
  {
    var h := BarHeight(activity, i);
    if h == 0.0 then 10.0 else h
  }

  datatype Stats = Stats(totalSessions: nat, avgScore: int, thisWeekSessions: nat)

  /** The screen's state: the three figures and the histogram. */
  class ProgressPage {
    var stats: Stats
    var weeklyActivity: seq<int>

    ghost predicate Valid()
      reads this
    {
      |weeklyActivity| == Days && forall k :: 0 <= k < Days ==> weeklyActivity[k] >= 0
    }

    constructor ()
      ensures Valid()
      ensures stats == Stats(0, 0, 0) && weeklyActivity == [0, 0, 0, 0, 0, 0, 0]
    {
      stats := Stats(0, 0, 0);
      weeklyActivity := [0, 0, 0, 0, 0, 0, 0];
    }

    /** `fetchProgress` once the query has answered: `None` is a query that
        returned no data, which leaves the screen as it was. */
    method FetchProgress(result: Option<seq<Session>>, now: int)
      requires Valid()
      modifies this
      ensures Valid()
      ensures result.None? ==> stats == old(stats) && weeklyActivity == old(weeklyActivity)
      ensures result.Some? ==>
        var sessions := result.value;
        && stats == Stats(|sessions|, AverageScore(sessions), ThisWeekCount(sessions, now))
        && weeklyActivity == Buckets(sessions, now)
    {
      if result.Some? {
        var sessions := result.value;
        stats := Stats(|sessions|, AverageScore(sessions), ThisWeekCount(sessions, now));
        var activity := WeeklyActivity(sessions, now);
        weeklyActivity := activity[..];
      }
    }
  }
}
