/** The recent-activity feed, GET app/api/profile/recent-activity/route.ts:
    quiz attempts grouped into one entry per UTC day, one entry per flashcard
    session, merged newest day first and cut to the requested length. A
    "YYYY-MM-DD" date is modelled by its UTC day number, which orders the
    same way `new Date(date).getTime()` does. */
module RecentActivity {
  import opened Common
  import opened Sorting
  import opened SrsValidation
  import opened SrsService

  /** The selected columns of one quiz attempt. */
  datatype AttemptRow = AttemptRow(attemptedAt: int, isCorrect: bool, timeSpent: int)

  datatype QualityCounts = QualityCounts(easy: int, normal: int, hard: int, forgot: int)

  datatype Activity =
    | QuizActivity(date: int, totalQuestions: nat, correctAnswers: nat, totalTime: int)
    | FlashcardActivity(date: int, mode: StudyMode, vocabularyCount: int, duration: int, qualityCounts: QualityCounts)

  datatype Response = Unauthorized | Activities(activities: seq<Activity>, totalActivities: nat)

  function AttemptDay(a: AttemptRow): int
  {
    UtcDay(a.attemptedAt)
  }

  /** The day's entry after counting one more attempt. */
  function CountAttempt(e: Activity, a: AttemptRow): Activity
    requires e.QuizActivity?
  {
    e.(totalQuestions := e.totalQuestions + 1,
       correctAnswers := e.correctAnswers + (if a.isCorrect then 1 else 0),
       totalTime := e.totalTime + a.timeSpent)
  }

  /** The entry of day d over the given attempts. */
  function DayEntry(attempts: seq<AttemptRow>, d: int): (e: Activity)
    ensures e.QuizActivity? && e.date == d
    ensures e.correctAnswers <= e.totalQuestions
  {
    if attempts == [] then QuizActivity(d, 0, 0, 0)
    else
      var a := attempts[|attempts| - 1];
      var e := DayEntry(attempts[..|attempts| - 1], d);
      if AttemptDay(a) == d then CountAttempt(e, a) else e
  }

  /** The number of attempts on day d. */
  function AttemptsOn(attempts: seq<AttemptRow>, d: int): nat
  {
    CountWhere(attempts, a => AttemptDay(a) == d)
  }

  /** The days with attempts, once each, in the order of their first attempt
      (the order of `Object.values` for these keys). */
  function Days(attempts: seq<AttemptRow>): (ds: seq<int>)
    ensures forall d :: d in ds <==> exists i :: 0 <= i < |attempts| && AttemptDay(attempts[i]) == d
    ensures forall i, j :: 0 <= i < j < |ds| ==> ds[i] != ds[j]
  {
    if attempts == [] then []
    else
      var init := attempts[..|attempts| - 1];
      var d := AttemptDay(attempts[|attempts| - 1]);
      assert forall i :: 0 <= i < |init| ==> init[i] == attempts[i];
      if d in Days(init) then Days(init) else Days(init) + [d]
  }

  /** The record `quizByDate` as the reduce leaves it. */
  function QuizByDate(attempts: seq<AttemptRow>): (m: map<int, Activity>)
    ensures forall d :: d in m <==> d in Days(attempts)
    ensures forall d :: d in m ==> m[d].QuizActivity?
  {
    map d | d in Days(attempts) :: DayEntry(attempts, d)
  }

  /** The reduce callback: create the day's entry when missing, then count. */
  function Reduced(acc: map<int, Activity>, a: AttemptRow): map<int, Activity>
    requires forall d :: d in acc ==> acc[d].QuizActivity?
  {
    var d := AttemptDay(a);
    var e := if d in acc then acc[d] else QuizActivity(d, 0, 0, 0);
    acc[d := CountAttempt(e, a)]
  }

  /** The callback in two statements: create the entry when missing, then count. */
  lemma ReducedInTwoSteps(acc: map<int, Activity>, a: AttemptRow)
    requires forall d :: d in acc ==> acc[d].QuizActivity?
    ensures var d := AttemptDay(a);
      var created := if d in acc then acc else acc[d := QuizActivity(d, 0, 0, 0)];
      && d in created && created[d].QuizActivity?
      && Reduced(acc, a) == created[d := CountAttempt(created[d], a)]
  {
  }

  /** A day without attempts has an empty entry. */
  lemma {:induction false} NoAttemptsEmptyEntry(attempts: seq<AttemptRow>, d: int)
    requires d !in Days(attempts)
    ensures DayEntry(attempts, d) == QuizActivity(d, 0, 0, 0)
  {
    if attempts != [] {
      var init := attempts[..|attempts| - 1];
      assert d !in Days(init);
      NoAttemptsEmptyEntry(init, d);
    }
  }

  lemma GroupStep(attempts: seq<AttemptRow>, k: nat)
    requires k < |attempts|
    ensures Days(attempts[..k + 1]) ==
      if AttemptDay(attempts[k]) in Days(attempts[..k]) then Days(attempts[..k])
      else Days(attempts[..k]) + [AttemptDay(attempts[k])]
    ensures QuizByDate(attempts[..k + 1]) == Reduced(QuizByDate(attempts[..k]), attempts[k])
  {
    PrefixStep(attempts, k);
    var d := AttemptDay(attempts[k]);
    if d !in Days(attempts[..k]) {
      NoAttemptsEmptyEntry(attempts[..k], d);
    }
  }

  /** `recentQuizzes.reduce(...)`, with `order` the keys in creation order. */
  method GroupByDate(attempts: seq<AttemptRow>) returns (order: seq<int>, quizByDate: map<int, Activity>)
    ensures order == Days(attempts)
    ensures quizByDate == QuizByDate(attempts)
  {
    order := [];
    quizByDate := map[];
    for k := 0 to |attempts|
      invariant order == Days(attempts[..k])
      invariant quizByDate == QuizByDate(attempts[..k])
    {
      var attempt := attempts[k];
      GroupStep(attempts, k);
      ReducedInTwoSteps(quizByDate, attempt);
      var date := AttemptDay(attempt);
      if date !in quizByDate {
        quizByDate := quizByDate[date := QuizActivity(date, 0, 0, 0)];
        order := order + [date];
      }
      quizByDate := quizByDate[date := CountAttempt(quizByDate[date], attempt)];
    }
    assert attempts[..|attempts|] == attempts;
  }

  /** The number of correct attempts on day d. */
  function CorrectOn(attempts: seq<AttemptRow>, d: int): nat
  {
    CountWhere(attempts, a => AttemptDay(a) == d && a.isCorrect)
  }

  /** The time spent on day d's attempts, added up from the first. */
  function TimeOn(attempts: seq<AttemptRow>, d: int): int
  {
    if attempts == [] then 0
    else (if AttemptDay(attempts[0]) == d then attempts[0].timeSpent else 0) + TimeOn(attempts[1..], d)
  }

  lemma {:induction false} TimeOnAppend(s: seq<AttemptRow>, x: AttemptRow, d: int)
    ensures TimeOn(s + [x], d) == TimeOn(s, d) + (if AttemptDay(x) == d then x.timeSpent else 0)
  {
    if s != [] {
      assert (s + [x])[1..] == s[1..] + [x];
      TimeOnAppend(s[1..], x, d);
    }
  }

  /** A day's entry counts that day's attempts and its correct ones, and adds
      up their time. */
  lemma {:induction false} DayEntryCounts(attempts: seq<AttemptRow>, d: int)
    ensures DayEntry(attempts, d).totalQuestions == AttemptsOn(attempts, d)
    ensures DayEntry(attempts, d).correctAnswers == CorrectOn(attempts, d)
    ensures DayEntry(attempts, d).totalTime == TimeOn(attempts, d)
  {
    if attempts != [] {
      var init := attempts[..|attempts| - 1];
      var a := attempts[|attempts| - 1];
      DayEntryCounts(init, d);
      assert attempts == init + [a];
      CountWhereAppend(init, a, a => AttemptDay(a) == d);
      CountWhereAppend(init, a, a => AttemptDay(a) == d && a.isCorrect);
      TimeOnAppend(init, a, d);
    }
  }

  /** `Object.values(quizByDate)`. */
  function QuizActivities(attempts: seq<AttemptRow>): (r: seq<Activity>)
    ensures |r| == |Days(attempts)|
    ensures forall i :: 0 <= i < |r| ==> r[i] == DayEntry(attempts, Days(attempts)[i])
  {
    var ds := Days(attempts);
    var m := QuizByDate(attempts);
    assert forall i :: 0 <= i < |ds| ==> ds[i] in m && m[ds[i]] == DayEntry(attempts, ds[i]);
    seq(|ds|, i requires 0 <= i < |ds| => m[ds[i]])
  }

  /** One quiz entry per day with attempts, counting exactly that day's
      attempts, of which the correct ones are at most all. */
  lemma QuizActivitiesSpec(attempts: seq<AttemptRow>)
    ensures var r := QuizActivities(attempts);
      && (forall i, j :: 0 <= i < j < |r| ==> r[i].date != r[j].date)
      && (forall d :: (exists i :: 0 <= i < |r| && r[i].date == d) <==> AttemptsOn(attempts, d) > 0)
      && (forall i :: 0 <= i < |r| ==>
            r[i].QuizActivity? && r[i].totalQuestions == AttemptsOn(attempts, r[i].date) > 0
            && r[i].correctAnswers <= r[i].totalQuestions)
  {
    var r := QuizActivities(attempts);
    var ds := Days(attempts);
    forall d
      ensures AttemptsOn(attempts, d) > 0 <==> d in ds
    {
      DayEntryCounts(attempts, d);
      if d !in ds {
        NoAttemptsEmptyEntry(attempts, d);
      } else {
        OnDayCounted(attempts, d);
      }
    }
    forall i | 0 <= i < |r|
      ensures r[i].totalQuestions == AttemptsOn(attempts, r[i].date)
    {
      DayEntryCounts(attempts, ds[i]);
    }
    forall d | d in ds
      ensures exists i :: 0 <= i < |r| && r[i].date == d
    {
      var i :| 0 <= i < |ds| && ds[i] == d;
      assert r[i].date == d;
    }
  }

  /** A day with an attempt has a positive count. */
  lemma OnDayCounted(attempts: seq<AttemptRow>, d: int)
    requires d in Days(attempts)
    ensures AttemptsOn(attempts, d) > 0
  {
    var i :| 0 <= i < |attempts| && AttemptDay(attempts[i]) == d;
    CountWherePositive(attempts, i, a => AttemptDay(a) == d);
  }

  lemma {:induction false} CountWherePositive<T>(s: seq<T>, i: nat, p: T -> bool)
    requires i < |s| && p(s[i])
    ensures CountWhere(s, p) > 0
  {
    if i > 0 {
      CountWherePositive(s[1..], i - 1, p);
    }
  }

  /** `recentFlashcards.map(...)`: one entry per session, counts copied. */
  function FlashcardActivities(sessions: seq<FlashcardSession>): (r: seq<Activity>)
    ensures |r| == |sessions|
    ensures forall i :: 0 <= i < |r| ==>
      && r[i].FlashcardActivity?
      && r[i].date == UtcDay(sessions[i].createdAt)
      && r[i].qualityCounts == QualityCounts(sessions[i].easyCount, sessions[i].normalCount,
                                             sessions[i].hardCount, sessions[i].forgotCount)
  {
    seq(|sessions|, i requires 0 <= i < |sessions| =>
      var s := sessions[i];
      FlashcardActivity(UtcDay(s.createdAt), s.mode, s.vocabularyCount, s.duration,
                        QualityCounts(s.easyCount, s.normalCount, s.hardCount, s.forgotCount)))
  }

  /** The comparator `(a, b) => date(b) - date(a)`: newest first. */
  predicate NewestFirst(a: Activity, b: Activity)
  {
    b.date - a.date <= 0
  }

  predicate IsQuiz(a: Activity)
  {
    a.QuizActivity?
  }

  /** The merged list, sorted newest day first. */
  function Sorted(attempts: seq<AttemptRow>, sessions: seq<FlashcardSession>): seq<Activity>
  {
    SortBy(QuizActivities(attempts) + FlashcardActivities(sessions), NewestFirst)
  }

  /** The feed is the first `limit` entries of the sorted merged list. */
  function Feed(attempts: seq<AttemptRow>, sessions: seq<FlashcardSession>, limit: int): seq<Activity>
  {
    SliceTo(Sorted(attempts, sessions), limit)
  }

  /** Sorting keeps the merged entries, puts newer days first, and keeps
      quiz entries before flashcard entries of the same day. */
  lemma SortedSpec(attempts: seq<AttemptRow>, sessions: seq<FlashcardSession>)
    ensures var s := Sorted(attempts, sessions);
      && |s| == |Days(attempts)| + |sessions|
      && (forall i, j :: 0 <= i < j < |s| ==> s[i].date >= s[j].date)
      && (forall i, j :: 0 <= i < j < |s| && s[i].date == s[j].date && IsQuiz(s[j]) ==> IsQuiz(s[i]))
      && (forall x :: x in s <==> x in QuizActivities(attempts) || x in FlashcardActivities(sessions))
  {
    var merged := QuizActivities(attempts) + FlashcardActivities(sessions);
    assert TotalPreorder(NewestFirst);
    SortBySorted(merged, NewestFirst);
    SortByMembers(merged, NewestFirst);
    assert PFirst(merged, IsQuiz);
    SortByStable(merged, IsQuiz, NewestFirst);
  }

  /** The feed is the newest `limit` entries of the merged list: it is the
      front of the sorted list and no entry left out is dated later than one
      returned. It is newest day first; on the same day quiz entries come
      before flashcard entries (the sort is stable and quiz entries come
      first); every entry comes from the merged list. */
  lemma FeedSpec(attempts: seq<AttemptRow>, sessions: seq<FlashcardSession>, limit: int)
    requires limit >= 0
    ensures var f := Feed(attempts, sessions, limit); var s := Sorted(attempts, sessions);
      && |f| == Min(limit, |Days(attempts)| + |sessions|)
      && f == s[..|f|]
      && (forall i, j :: 0 <= i < |f| <= j < |s| ==> s[j].date <= f[i].date)
      && (forall i, j :: 0 <= i < j < |f| ==> f[i].date >= f[j].date)
      && (forall i, j :: 0 <= i < j < |f| && f[i].date == f[j].date && IsQuiz(f[j]) ==> IsQuiz(f[i]))
      && (forall x :: x in f ==> x in QuizActivities(attempts) || x in FlashcardActivities(sessions))
  {
    var s := Sorted(attempts, sessions);
    SortedSpec(attempts, sessions);
    var f := Feed(attempts, sessions, limit);
    assert f == s[..|f|];
    forall i, j | 0 <= i < j < |f|
      ensures f[i].date >= f[j].date
      ensures f[i].date == f[j].date && IsQuiz(f[j]) ==> IsQuiz(f[i])
    {
      assert f[i] == s[i] && f[j] == s[j];
    }
    forall i, j | 0 <= i < |f| <= j < |s|
      ensures s[j].date <= f[i].date
    {
      assert f[i] == s[i];
    }
    forall x | x in f
      ensures x in s
    {
      var i :| 0 <= i < |f| && f[i] == x;
      assert s[i] == x;
    }
  }

  /** GET: `sessionUserId` is the signed-in user's id, if any; `attempts`
      and `sessions` are the user's newest rows as the two queries return
      them; `limit` is the parsed `limit` parameter. */
  function Get(sessionUserId: Option<string>, attempts: seq<AttemptRow>, sessions: seq<FlashcardSession>, limit: int)
    : (r: Response)
    ensures r.Activities? ==> r.totalActivities == |r.activities|
    ensures r.Unauthorized? <==> sessionUserId.None? || sessionUserId.value == ""
  {
    if sessionUserId.None? || sessionUserId.value == "" then Unauthorized
    else
      var activities := Feed(attempts, sessions, limit);
      Activities(activities, |activities|)
  }
}
