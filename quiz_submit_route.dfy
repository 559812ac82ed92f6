/** The quiz submission endpoint, POST app/api/quiz/submit/route.ts: grade
    each answer against its question, store one attempt per graded answer,
    add the earned XP and today's streak to the profile, and reply with the
    per-question results and a summary. */
module QuizSubmitRoute {
  import opened Common
  import opened QuizXp
  import opened Streak
  import opened SrsService
  import opened Questions

  datatype QuizQuestion = QuizQuestion(id: string, sentence: string, options: seq<QuestionOption>)

  datatype QuizSubmission = QuizSubmission(questionId: string, selectedAnswer: string, timeSpent: int, hintLevel: HintLevel)

  datatype QuizResult = QuizResult(questionId: string, isCorrect: bool, correctAnswer: Option<string>, explanation: string)

  datatype QuizAttempt = QuizAttempt(userId: string, questionId: string, selectedAnswer: string,
                                     isCorrect: bool, timeSpent: int, hintLevel: HintLevel)

  datatype HintStats = HintStats(noHintCorrect: nat, partialHintCorrect: nat, fullHintCorrect: nat)

  /** The loop's accumulators. */
  datatype Grading = Grading(totalXP: nat, correctBaseXP: nat, hintStats: HintStats,
                             results: seq<QuizResult>, attempts: seq<QuizAttempt>)

  datatype QuizSummary = QuizSummary(total: nat, correct: nat, accuracy: int, xpEarned: nat,
                                     correctBaseXP: nat, hintStats: HintStats)

  datatype SubmitResponse = Unauthorized | Submitted(results: seq<QuizResult>, summary: QuizSummary)

  /** `correctOption?.text === answer.selectedAnswer`: a question without a
      correct option grades every answer wrong. */
  predicate IsCorrect(q: QuizQuestion, a: QuizSubmission)
  {
    CorrectOption(q.options) == Some(a.selectedAnswer)
  }

  function ResultOf(q: QuizQuestion, a: QuizSubmission): QuizResult
  {
    QuizResult(a.questionId, IsCorrect(q, a), CorrectOption(q.options), q.sentence)
  }

  function AttemptOf(userId: string, q: QuizQuestion, a: QuizSubmission): QuizAttempt
  {
    QuizAttempt(userId, a.questionId, a.selectedAnswer, IsCorrect(q, a), a.timeSpent, a.hintLevel)
  }

  function CountHint(s: HintStats, hintLevel: HintLevel): HintStats
  {
    if hintLevel == 0 then s.(noHintCorrect := s.noHintCorrect + 1)
    else if hintLevel == 1 then s.(partialHintCorrect := s.partialHintCorrect + 1)
    else s.(fullHintCorrect := s.fullHintCorrect + 1)
  }

  /** One turn of the grading loop. */
  function Grade(g: Grading, userId: string, questions: map<string, QuizQuestion>, a: QuizSubmission): Grading
  {
    if a.questionId !in questions then g
    else
      var q := questions[a.questionId];
      var g1 := if IsCorrect(q, a) then
        g.(totalXP := g.totalXP + CalculateQuestionXp(true, a.hintLevel),
           correctBaseXP := g.correctBaseXP + BaseXpPerQuestion,
           hintStats := CountHint(g.hintStats, a.hintLevel))
      else g;
      g1.(attempts := g.attempts + [AttemptOf(userId, q, a)], results := g.results + [ResultOf(q, a)])
  }

  /** The accumulators after grading `answers` in order. */
  function GradeAll(userId: string, questions: map<string, QuizQuestion>, answers: seq<QuizSubmission>): Grading
  {
    if answers == [] then Grading(0, 0, HintStats(0, 0, 0), [], [])
    else Grade(GradeAll(userId, questions, answers[..|answers| - 1]), userId, questions, answers[|answers| - 1])
  }

  /** An answer is graded when its question exists. */
  predicate Known(questions: map<string, QuizQuestion>, a: QuizSubmission)
  {
    a.questionId in questions
  }

  /** `Known` as the filter the loop applies. */
  function KnownIn(questions: map<string, QuizQuestion>): QuizSubmission -> bool
  {
    a => Known(questions, a)
  }

  /** The XP the answers earn: `calculateQuestionXP` for each answer to a
      known question, nothing for the others. */
  function SumXp(questions: map<string, QuizQuestion>, answers: seq<QuizSubmission>): nat
  {
    if answers == [] then 0
    else
      var a := answers[|answers| - 1];
      SumXp(questions, answers[..|answers| - 1])
        + (if Known(questions, a) then CalculateQuestionXp(IsCorrect(questions[a.questionId], a), a.hintLevel) else 0)
  }

  predicate ResultIsCorrect(r: QuizResult)
  {
    r.isCorrect
  }

  /** The accumulators after one more answer, from those before it. */
  lemma GradeAllStep(userId: string, questions: map<string, QuizQuestion>, answers: seq<QuizSubmission>, k: nat)
    requires k < |answers|
    ensures GradeAll(userId, questions, answers[..k + 1])
      == Grade(GradeAll(userId, questions, answers[..k]), userId, questions, answers[k])
  {
    assert answers[..k + 1][..k] == answers[..k];
  }

  /** results[i] and attempts[i] are those of the answer kept[i]. */
  ghost predicate Matches(userId: string, questions: map<string, QuizQuestion>, kept: seq<QuizSubmission>,
                          results: seq<QuizResult>, attempts: seq<QuizAttempt>)
  {
    && |results| == |kept| && |attempts| == |kept|
    && forall i :: 0 <= i < |kept| ==>
         && Known(questions, kept[i])
         && results[i] == ResultOf(questions[kept[i].questionId], kept[i])
         && attempts[i] == AttemptOf(userId, questions[kept[i].questionId], kept[i])
  }

  lemma MatchesExtend(userId: string, questions: map<string, QuizQuestion>, kept: seq<QuizSubmission>,
                      results: seq<QuizResult>, attempts: seq<QuizAttempt>, a: QuizSubmission)
    requires Matches(userId, questions, kept, results, attempts) && Known(questions, a)
    ensures Matches(userId, questions, kept + [a], results + [ResultOf(questions[a.questionId], a)],
                    attempts + [AttemptOf(userId, questions[a.questionId], a)])
  {
  }

  lemma KeptStep(questions: map<string, QuizQuestion>, answers: seq<QuizSubmission>)
    requires answers != []
    ensures var last := answers[|answers| - 1];
      Filter(answers, KnownIn(questions))
        == Filter(answers[..|answers| - 1], KnownIn(questions)) + (if Known(questions, last) then [last] else [])
  {
    FilterSnoc(answers, KnownIn(questions));
  }

  /** Results and attempts are the graded answers' own, one each, in order:
      an answer to an unknown question leaves no trace. */
  lemma {:induction false} GradedInOrder(userId: string, questions: map<string, QuizQuestion>, answers: seq<QuizSubmission>)
    ensures var g := GradeAll(userId, questions, answers);
      Matches(userId, questions, Filter(answers, KnownIn(questions)), g.results, g.attempts)
  {
    if answers != [] {
      var init := answers[..|answers| - 1];
      var last := answers[|answers| - 1];
      GradedInOrder(userId, questions, init);
      KeptStep(questions, answers);
      if Known(questions, last) {
        var g0 := GradeAll(userId, questions, init);
        MatchesExtend(userId, questions, Filter(init, KnownIn(questions)), g0.results, g0.attempts, last);
      }
    }
  }

  /** The XP total is the sum of `calculateQuestionXP` over the graded answers. */
  lemma {:induction false} GradedXp(userId: string, questions: map<string, QuizQuestion>, answers: seq<QuizSubmission>)
    ensures GradeAll(userId, questions, answers).totalXP == SumXp(questions, answers)
  {
    if answers != [] {
      var last := answers[|answers| - 1];
      GradedXp(userId, questions, answers[..|answers| - 1]);
      if Known(questions, last) {
        XpTable(IsCorrect(questions[last.questionId], last), last.hintLevel);
      }
    }
  }

  /** The base XP is 10 per correct answer, the hint counts split the correct
      answers, and the earned XP stays within the base XP. */
  lemma {:induction false} GradedCounts(userId: string, questions: map<string, QuizQuestion>, answers: seq<QuizSubmission>)
    ensures var g := GradeAll(userId, questions, answers);
      var correct := CountWhere(g.results, ResultIsCorrect);
      && g.correctBaseXP == BaseXpPerQuestion * correct
      && g.hintStats.noHintCorrect + g.hintStats.partialHintCorrect + g.hintStats.fullHintCorrect == correct
      && g.totalXP <= g.correctBaseXP
  {
    if answers != [] {
      var init := answers[..|answers| - 1];
      var last := answers[|answers| - 1];
      GradedCounts(userId, questions, init);
      if Known(questions, last) {
        var q := questions[last.questionId];
        CountWhereAppend(GradeAll(userId, questions, init).results, ResultOf(q, last), ResultIsCorrect);
        XpTable(true, last.hintLevel);
      }
    }
  }

  /** The grading loop of the handler. */
  method GradeAnswers(userId: string, questions: map<string, QuizQuestion>, answers: seq<QuizSubmission>)
    returns (g: Grading)
    ensures g == GradeAll(userId, questions, answers)
  {
    var totalXP: nat := 0;
    var correctBaseXP: nat := 0;
    var hintStats := HintStats(0, 0, 0);
    var results := [];
    var attemptData := [];
    for k := 0 to |answers|
      invariant Grading(totalXP, correctBaseXP, hintStats, results, attemptData) == GradeAll(userId, questions, answers[..k])
    {
      GradeAllStep(userId, questions, answers, k);
      var answer := answers[k];
      if answer.questionId !in questions {
        continue;
      }
      var question := questions[answer.questionId];
      var correctOption := CorrectOption(question.options);
      var isCorrect := correctOption == Some(answer.selectedAnswer);
      if isCorrect {
        var earnedXp := CalculateQuestionXp(true, answer.hintLevel);
        totalXP := totalXP + earnedXp;
        correctBaseXP := correctBaseXP + BaseXpPerQuestion;
        if answer.hintLevel == 0 {
          hintStats := hintStats.(noHintCorrect := hintStats.noHintCorrect + 1);
        } else if answer.hintLevel == 1 {
          hintStats := hintStats.(partialHintCorrect := hintStats.partialHintCorrect + 1);
        } else {
          hintStats := hintStats.(fullHintCorrect := hintStats.fullHintCorrect + 1);
        }
      }
      attemptData := attemptData + [QuizAttempt(userId, answer.questionId, answer.selectedAnswer, isCorrect,
                                                answer.timeSpent, answer.hintLevel)];
      results := results + [QuizResult(answer.questionId, isCorrect, correctOption, question.sentence)];
    }
    assert answers[..|answers|] == answers;
    g := Grading(totalXP, correctBaseXP, hintStats, results, attemptData);
  }

  /** The reply's `summary`. */
  function SummaryOf(g: Grading): QuizSummary
  {
    var correct := CountWhere(g.results, ResultIsCorrect);
    QuizSummary(|g.results|, correct, RoundedPercent(correct, |g.results|), g.totalXP, g.correctBaseXP, g.hintStats)
  }

  /** The summary's figures are consistent: correct out of total, accuracy a
      percentage, earned XP within the hint-free XP, hint counts adding up to
      the correct answers. */
  lemma SummaryBounds(userId: string, questions: map<string, QuizQuestion>, answers: seq<QuizSubmission>)
    ensures var s := SummaryOf(GradeAll(userId, questions, answers));
      && s.total == CountWhere(answers, KnownIn(questions))
      && s.correct <= s.total
      && 0 <= s.accuracy <= 100
      && (s.total == 0 ==> s.accuracy == 0)
      && s.xpEarned == SumXp(questions, answers)
      && s.correctBaseXP == BaseXpPerQuestion * s.correct
      && s.xpEarned <= s.correctBaseXP
      && s.hintStats.noHintCorrect + s.hintStats.partialHintCorrect + s.hintStats.fullHintCorrect == s.correct
  {
    var g := GradeAll(userId, questions, answers);
    GradedInOrder(userId, questions, answers);
    GradedXp(userId, questions, answers);
    GradedCounts(userId, questions, answers);
    RoundedPercentBounds(CountWhere(g.results, ResultIsCorrect), |g.results|);
  }

  /** The profile after the upsert: created with the earned XP, or credited. */
  function CreditedProfile(existing: Option<Profile>, xp: nat, now: int): Profile
  {
    var streakData := GetStreakUpdateData(if existing.Some? then Some(existing.value.streak) else None, now);
    if existing.Some? then existing.value.(totalXP := existing.value.totalXP + xp, streak := Streaked(streakData))
    else Profile(0, 0, 0, xp, Streaked(streakData))
  }

  /** The quiz tables the handler touches: attempts and profiles. */
  class QuizStore {
    var attempts: seq<QuizAttempt>
    var profiles: map<string, Profile>

    constructor (profiles0: map<string, Profile>)
      ensures attempts == [] && profiles == profiles0
    {
      attempts := [];
      profiles := profiles0;
    }

    /** `POST`: `sessionUserId` is the signed-in user's id, if any. */
    method Submit(sessionUserId: Option<string>, answers: seq<QuizSubmission>,
                  questions: map<string, QuizQuestion>, now: int)
      returns (resp: SubmitResponse)
      modifies this
      ensures sessionUserId.None? || sessionUserId.value == "" ==>
        resp == Unauthorized && attempts == old(attempts) && profiles == old(profiles)
      ensures sessionUserId.Some? && sessionUserId.value != "" ==>
        var userId := sessionUserId.value;
        var g := GradeAll(userId, questions, answers);
        && attempts == old(attempts) + g.attempts
        && profiles == old(profiles)[userId := CreditedProfile(
             if userId in old(profiles) then Some(old(profiles)[userId]) else None, g.totalXP, now)]
        && resp == Submitted(g.results, SummaryOf(g))
    {
      if sessionUserId.None? || sessionUserId.value == "" {
        return Unauthorized;
      }
      var userId := sessionUserId.value;
      var g := GradeAnswers(userId, questions, answers);
      if |g.attempts| > 0 {
        attempts := attempts + g.attempts;
      } else {
        assert attempts + g.attempts == attempts;
      }
      var current := if userId in profiles then Some(profiles[userId]) else None;
      profiles := profiles[userId := CreditedProfile(current, g.totalXP, now)];
      resp := Submitted(g.results, SummaryOf(g));
    }
  }
}
