/** The one-off streak migration of prisma/migrate-streak-data.ts: for every
    profile, gather the instants of all study activity, reduce them to the
    sorted distinct Korean calendar days, and derive the longest run of
    consecutive days, the run that ends today and the latest activity. Days
    are the day numbers of `Streak.KstDay`; each stands for the "YYYY-MM-DD"
    string the source sorts and compares. */
module MigrateStreak {
  import opened Common
  import opened Sorting
  import opened Streak

  /** The activity timestamps of one user: quiz attempts, flashcard sessions
      and placement tests. */
  datatype UserActivity = UserActivity(quizAttempts: seq<int>, flashcardSessions: seq<int>, diagnoses: seq<int>)

  function AllDates(a: UserActivity): seq<int>
  {
    a.quizAttempts + a.flashcardSessions + a.diagnoses
  }

  ghost predicate StrictlyIncreasing(s: seq<int>)
  {
    forall i, j :: 0 <= i < j < |s| ==> s[i] < s[j]
  }

  /** Adds day d to a sorted sequence of distinct days. */
  function InsertDay(d: int, s: seq<int>): (r: seq<int>)
    requires StrictlyIncreasing(s)
    ensures StrictlyIncreasing(r)
    ensures forall x :: x in r <==> x in s || x == d
  {
    if s == [] then [d]
    else if d < s[0] then [d] + s
    else if d == s[0] then s
    else
      assert forall x :: x in s[1..] ==> x > s[0];
      var rest := InsertDay(d, s[1..]);
      MembersAbove(rest, s[0]);
      [s[0]] + rest
  }

  lemma MembersAbove(r: seq<int>, lo: int)
    requires forall x :: x in r ==> x > lo
    ensures forall j :: 0 <= j < |r| ==> lo < r[j]
  {
    forall j | 0 <= j < |r|
      ensures lo < r[j]
    {
      assert r[j] in r;
    }
  }

  /** `[...new Set(allDates.map(toKSTDateString))].sort()`: every day with
      some activity, once, in ascending order. */
  function UniqueKstDays(dates: seq<int>): (days: seq<int>)
    ensures StrictlyIncreasing(days)
    ensures forall t :: t in dates ==> KstDay(t) in days
    ensures forall x :: x in days ==> exists t :: t in dates && KstDay(t) == x
    ensures |days| == 0 <==> |dates| == 0
  {
    if dates == [] then []
    else
      var init := dates[..|dates| - 1];
      var last := dates[|dates| - 1];
      assert dates == init + [last];
      InsertDay(KstDay(last), UniqueKstDays(init))
  }

  /** days[i..j] is a run of consecutive calendar days. */
  ghost predicate IsRun(days: seq<int>, i: int, j: int)
  {
    0 <= i < j <= |days| && forall k :: i < k < j ==> days[k] - days[k - 1] == 1
  }

  /** n is the length of the longest run. */
  ghost predicate IsLongest(days: seq<int>, n: int)
  {
    && (exists i, j :: IsRun(days, i, j) && j - i == n)
    && (forall i, j :: IsRun(days, i, j) ==> j - i <= n)
  }

  /** The n days ending today are all present and the day before them is not. */
  ghost predicate IsCurrent(days: seq<int>, today: int, n: int)
  {
    && n >= 0
    && (forall d :: today - n < d <= today ==> d in days)
    && today - n !in days
  }

  /** Length of the longest run of consecutive days that ends at index i. */
  function RunEnding(days: seq<int>, i: nat): (n: nat)
    requires i < |days|
    ensures 1 <= n <= i + 1
  {
    if i == 0 then 1
    else if days[i] - days[i - 1] == 1 then RunEnding(days, i - 1) + 1
    else 1
  }

  /** Length of the longest run within the first i days. */
  function LongestUpTo(days: seq<int>, i: nat): (n: nat)
    requires 1 <= i <= |days|
    ensures 1 <= n <= i
  {
    if i == 1 then 1 else Max(LongestUpTo(days, i - 1), RunEnding(days, i - 1))
  }

  /** RunEnding(days, j - 1) is the length of a run ending before j, and no
      run ending there is longer. */
  lemma {:induction false} RunEndingIsMaximal(days: seq<int>, j: nat)
    requires 1 <= j <= |days|
    ensures IsRun(days, j - RunEnding(days, j - 1), j)
    ensures forall a :: IsRun(days, a, j) ==> a >= j - RunEnding(days, j - 1)
  {
    var i := j - 1;
    if i > 0 {
      RunEndingIsMaximal(days, i);
      if days[i] - days[i - 1] == 1 {
        forall a | IsRun(days, a, j)
          ensures a >= j - RunEnding(days, i)
        {
          if a < i {
            assert IsRun(days, a, i);
          }
        }
      } else {
        forall a | IsRun(days, a, j)
          ensures a == i
        {
        }
      }
    }
  }

  /** LongestUpTo(days, i) is the length of a run within the first i days,
      and no run there is longer. */
  lemma {:induction false} LongestUpToIsLongest(days: seq<int>, i: nat)
    requires 1 <= i <= |days|
    ensures exists a, b :: IsRun(days, a, b) && b <= i && b - a == LongestUpTo(days, i)
    ensures forall a, b :: IsRun(days, a, b) && b <= i ==> b - a <= LongestUpTo(days, i)
  {
    if i == 1 {
      assert IsRun(days, 0, 1);
    } else {
      LongestUpToIsLongest(days, i - 1);
      RunEndingIsMaximal(days, i);
      if RunEnding(days, i - 1) > LongestUpTo(days, i - 1) {
        assert IsRun(days, i - RunEnding(days, i - 1), i);
      }
    }
  }

  /** The longest-streak loop: `tempStreak` is the run ending at the current
      day, `longestStreak` the best seen. */
  method LongestStreak(days: seq<int>) returns (longestStreak: nat)
    requires |days| >= 1
    ensures longestStreak == LongestUpTo(days, |days|)
    ensures IsLongest(days, longestStreak)
  {
    longestStreak := 1;
    var tempStreak := 1;
    for i := 1 to |days|
      invariant tempStreak == RunEnding(days, i - 1)
      invariant longestStreak == LongestUpTo(days, i)
    {
      var diffDays := days[i] - days[i - 1];
      if diffDays == 1 {
        tempStreak := tempStreak + 1;
        longestStreak := Max(longestStreak, tempStreak);
      } else {
        tempStreak := 1;
      }
    }
    LongestUpToIsLongest(days, |days|);
  }

  /** The backward scan from today: count days while the previous one is
      present. It stops because every present day is at least the first one. */
  method CurrentStreak(days: seq<int>, today: int) returns (currentStreak: nat)
    requires |days| >= 1 && StrictlyIncreasing(days)
    ensures IsCurrent(days, today, currentStreak)
  {
    var dateSet := set d | d in days;
    currentStreak := 0;
    var checkDate := today;
    while true
      invariant checkDate == today - currentStreak
      invariant forall d :: checkDate < d <= today ==> d in days
      decreases checkDate - days[0] + 1
    {
      if checkDate in dateSet {
        var idx :| 0 <= idx < |days| && days[idx] == checkDate;
        assert idx == 0 || days[0] < days[idx];
        currentStreak := currentStreak + 1;
        checkDate := checkDate - 1;
      } else {
        break;
      }
    }
  }

  /** Sorting instants newest first: `(a, b) => b - a`. */
  predicate NewestFirst(a: int, b: int)
  {
    b - a <= 0
  }

  /** `allDates.sort((a, b) => b - a)[0]`. */
  function LatestDate(allDates: seq<int>): int
    requires |allDates| > 0
  {
    SortBy(allDates, NewestFirst)[0]
  }

  /** The first instant after a newest-first sort is the latest activity. */
  lemma LatestIsMaximum(allDates: seq<int>)
    requires |allDates| > 0
    ensures LatestDate(allDates) in allDates
    ensures forall t :: t in allDates ==> t <= LatestDate(allDates)
  {
    var sorted := SortBy(allDates, NewestFirst);
    assert TotalPreorder(NewestFirst);
    SortBySorted(allDates, NewestFirst);
    SortByMembers(allDates, NewestFirst);
    forall t | t in allDates
      ensures t <= sorted[0]
    {
      var j :| 0 <= j < |sorted| && sorted[j] == t;
      if j > 0 {
        assert NewestFirst(sorted[0], sorted[j]);
      }
    }
  }

  /** The longest-run length is determined by the days. */
  lemma LongestIsUnique(days: seq<int>, n1: int, n2: int)
    requires IsLongest(days, n1) && IsLongest(days, n2)
    ensures n1 == n2
  {
    var i1, j1 :| IsRun(days, i1, j1) && j1 - i1 == n1;
    var i2, j2 :| IsRun(days, i2, j2) && j2 - i2 == n2;
  }

  /** The current streak is determined by the days and today. */
  lemma CurrentIsUnique(days: seq<int>, today: int, c1: int, c2: int)
    requires IsCurrent(days, today, c1) && IsCurrent(days, today, c2)
    ensures c1 == c2
  {
  }

  /** The streak fields the migration writes for one user with activity:
      the latest activity, the longest run as `LongestUpTo` computes it, and
      the current streak. `MigratedMeans` restates it with `IsLongest`. */
  ghost predicate Migrated(s: StreakState, a: UserActivity, today: int)
    requires |AllDates(a)| > 0
  {
    var days := UniqueKstDays(AllDates(a));
    && s.lastStudyDate == Some(LatestDate(AllDates(a)))
    && s.longestStreak == LongestUpTo(days, |days|)
    && IsCurrent(days, today, s.currentStreak)
  }

  /** The migrated fields are exactly the latest activity, the length of the
      longest run of consecutive days, and the current streak. */
  lemma MigratedMeans(s: StreakState, a: UserActivity, today: int)
    requires |AllDates(a)| > 0
    ensures var days := UniqueKstDays(AllDates(a));
      Migrated(s, a, today) <==>
        && s.lastStudyDate == Some(LatestDate(AllDates(a)))
        && IsLongest(days, s.longestStreak)
        && IsCurrent(days, today, s.currentStreak)
  {
    var days := UniqueKstDays(AllDates(a));
    LongestUpToIsLongest(days, |days|);
    if IsLongest(days, s.longestStreak) {
      LongestIsUnique(days, s.longestStreak, LongestUpTo(days, |days|));
    }
  }

  predicate HasActivity(activity: map<string, UserActivity>, userId: string)
  {
    userId in activity && |AllDates(activity[userId])| > 0
  }

  /** The migration of one user: None when there is no activity (skipped). */
  method MigrateUser(a: UserActivity, now: int) returns (r: Option<StreakState>)
    ensures r.None? <==> |AllDates(a)| == 0
    ensures r.Some? ==> Migrated(r.value, a, KstDay(now))
  {
    var allDates := AllDates(a);
    var uniqueKstDates := UniqueKstDays(allDates);
    if |uniqueKstDates| == 0 {
      return None;
    }
    var longestStreak := LongestStreak(uniqueKstDates);
    var currentStreak := CurrentStreak(uniqueKstDates, KstDay(now));
    var lastDate := LatestDate(allDates);
    r := Some(StreakState(Some(lastDate), currentStreak, longestStreak));
  }


  /** The activity of a user, none when absent. */
  function ActivityOf(activity: map<string, UserActivity>, userId: string): UserActivity
  {
    if userId in activity then activity[userId] else UserActivity([], [], [])
  }

  /** One turn of the outer loop, for the profiles it must leave alone. */
  lemma UntouchedStep(done: seq<string>, userId: string, activity: map<string, UserActivity>,
                      profiles0: map<string, StreakState>, profiles: map<string, StreakState>,
                      r: Option<StreakState>)
    requires profiles.Keys == profiles0.Keys
    requires forall u :: u in profiles0 && !(u in done && HasActivity(activity, u)) ==> profiles[u] == profiles0[u]
    requires userId in profiles0
    requires r.None? <==> |AllDates(ActivityOf(activity, userId))| == 0
    ensures var next := if r.None? then profiles else profiles[userId := r.value];
      && next.Keys == profiles0.Keys
      && forall u :: u in profiles0 && !(u in done + [userId] && HasActivity(activity, u)) ==> next[u] == profiles0[u]
  {
    var next := if r.None? then profiles else profiles[userId := r.value];
    forall u | u in profiles0 && !(u in done + [userId] && HasActivity(activity, u))
      ensures next[u] == profiles0[u]
    {
      assert u in done + [userId] <==> u in done || u == userId;
    }
  }

  /** One turn of the outer loop, for the profiles it has migrated. */
  lemma MigratedStep(done: seq<string>, userId: string, activity: map<string, UserActivity>,
                     profiles: map<string, StreakState>, today: int, r: Option<StreakState>)
    requires forall u :: u in done && HasActivity(activity, u) ==> u in profiles && Migrated(profiles[u], activity[u], today)
    requires r.None? <==> |AllDates(ActivityOf(activity, userId))| == 0
    requires r.Some? ==> Migrated(r.value, ActivityOf(activity, userId), today)
    ensures var next := if r.None? then profiles else profiles[userId := r.value];
      forall u :: u in done + [userId] && HasActivity(activity, u) ==> u in next && Migrated(next[u], activity[u], today)
  {
    var next := if r.None? then profiles else profiles[userId := r.value];
    forall u | u in done + [userId] && HasActivity(activity, u)
      ensures u in next && Migrated(next[u], activity[u], today)
    {
      if u != userId {
        assert u in done;
        assert next[u] == profiles[u];
      }
    }
  }

  /** The outer loop: every listed profile with activity gets its streak
      fields rewritten, the others keep theirs, and `updated` counts the
      rewritten ones. */
  method MigrateStreakData(userIds: seq<string>, activity: map<string, UserActivity>,
                           profiles0: map<string, StreakState>, now: int)
    returns (profiles: map<string, StreakState>, updated: nat)
    requires forall u :: u in userIds ==> u in profiles0
    ensures profiles.Keys == profiles0.Keys
    ensures forall u :: u in profiles0 && !(u in userIds && HasActivity(activity, u)) ==> profiles[u] == profiles0[u]
    ensures forall u :: u in userIds && HasActivity(activity, u) ==>
      Migrated(profiles[u], activity[u], KstDay(now))
    ensures updated == CountWhere(userIds, u => HasActivity(activity, u))
  {
    profiles := profiles0;
    updated := 0;
    for k := 0 to |userIds|
      invariant profiles.Keys == profiles0.Keys
      invariant forall u :: u in profiles0 && !(u in userIds[..k] && HasActivity(activity, u)) ==> profiles[u] == profiles0[u]
      invariant forall u :: u in userIds[..k] && HasActivity(activity, u) ==>
        u in profiles && Migrated(profiles[u], activity[u], KstDay(now))
      invariant updated == CountWhere(userIds[..k], u => HasActivity(activity, u))
    {
      var userId := userIds[k];
      PrefixAppend(userIds, k);
      CountWhereAppend(userIds[..k], userId, u => HasActivity(activity, u));
      var r := MigrateUser(ActivityOf(activity, userId), now);
      UntouchedStep(userIds[..k], userId, activity, profiles0, profiles, r);
      MigratedStep(userIds[..k], userId, activity, profiles, KstDay(now), r);
      if r.None? {
        continue;
      }
      profiles := profiles[userId := r.value];
      updated := updated + 1;
    }
    assert userIds[..|userIds|] == userIds;
  }
}
