/** The answer sheet of a quiz run (features/quiz/hooks/use-quiz-answers.ts):
    the chosen answer per question, the hint level reached per question and
    the instant each question was first shown. */
module QuizAnswers {
  import opened Common
  import opened QuizXp
  import QuizSubmitRoute

  /** The fields of a quiz question the hook reads. */
  datatype QuizQuestion = QuizQuestion(id: string, contextHint: Option<string>)

  /** The highest hint a question offers: the context hint (1) and then the
      full hint (2) when it has a non-empty context hint, the full hint (1)
      otherwise. */
  function MaxHintLevel(q: QuizQuestion): HintLevel
  {
    if q.contextHint.Some? && q.contextHint.value != "" then 2 else 1
  }

  /** `Math.min(current + 1, maxLevel)`. */
  function NextHintLevel(current: HintLevel, maxLevel: HintLevel): (h: HintLevel)
  {
    Min(current + 1, maxLevel)
  }

  /** A hint request raises the level by at most one, never past the
      question's maximum, and never lowers a level within that maximum. */
  lemma HintRequestBounds(current: HintLevel, maxLevel: HintLevel)
    ensures NextHintLevel(current, maxLevel) <= current + 1
    ensures NextHintLevel(current, maxLevel) <= maxLevel
    ensures current <= maxLevel ==> current <= NextHintLevel(current, maxLevel)
    ensures current < maxLevel ==> NextHintLevel(current, maxLevel) == current + 1
  {
  }

  /** `Math.floor((now - startTime) / 1000)`: whole seconds since the start. */
  function TimeSpent(startTime: int, now: int): (t: int)
    ensures 1000 * t <= now - startTime < 1000 * t + 1000
    ensures startTime <= now ==> t >= 0
  {
    FloorDiv(now - startTime, 1000)
  }

  class QuizAnswerSheet {
    var answers: map<string, QuizSubmitRoute.QuizSubmission>
    var hintLevels: map<string, HintLevel>
    var startTimes: map<string, int>

    constructor ()
      ensures answers == map[] && hintLevels == map[] && startTimes == map[]
    {
      answers := map[];
      hintLevels := map[];
      startTimes := map[];
    }

    /** The effect run when the current question changes: stamp the shown
        question's start time unless it already has one (a stored 0 counts as
        none, as in the source's truthiness test). */
    method MarkStart(questions: seq<QuizQuestion>, currentIndex: int, isQuizSubmitted: bool, now: int)
      modifies this`startTimes
      ensures var stamp := |questions| > 0 && !isQuizSubmitted && 0 <= currentIndex < |questions|
                           && questions[currentIndex].id != ""
                           && (questions[currentIndex].id !in old(startTimes) || old(startTimes)[questions[currentIndex].id] == 0);
        startTimes == if stamp then old(startTimes)[questions[currentIndex].id := now] else old(startTimes)
      ensures forall id :: id in old(startTimes) && old(startTimes)[id] != 0 ==>
        id in startTimes && startTimes[id] == old(startTimes)[id]
    {
      if |questions| > 0 && !isQuizSubmitted {
        if 0 <= currentIndex < |questions| {
          var currentQuestionId := questions[currentIndex].id;
          if currentQuestionId != "" && (currentQuestionId !in startTimes || startTimes[currentQuestionId] == 0) {
            startTimes := startTimes[currentQuestionId := now];
          }
        }
      }
    }

    /** `handleAnswer`: record (or overwrite) this question's answer with the
        seconds spent on it and the hint level it reached. */
    method HandleAnswer(questionId: string, answer: string, now: int)
      modifies this`answers
      ensures var startTime := if questionId in startTimes then startTimes[questionId] else now;
        var hintLevel := if questionId in hintLevels then hintLevels[questionId] else 0;
        answers == old(answers)[questionId :=
          QuizSubmitRoute.QuizSubmission(questionId, answer, TimeSpent(startTime, now), hintLevel)]
      ensures questionId !in startTimes ==> answers[questionId].timeSpent == 0
    {
      var startTime := if questionId in startTimes then startTimes[questionId] else now;
      var timeSpent := TimeSpent(startTime, now);
      var hintLevel := if questionId in hintLevels then hintLevels[questionId] else 0;
      answers := answers[questionId := QuizSubmitRoute.QuizSubmission(questionId, answer, timeSpent, hintLevel)];
    }

    /** `handleHintRequest`: raise the current question's hint level by one,
        up to its maximum; with no current question nothing changes. */
    method HandleHintRequest(questions: seq<QuizQuestion>, currentIndex: int)
      modifies this`hintLevels
      ensures !(0 <= currentIndex < |questions|) ==> hintLevels == old(hintLevels)
      ensures 0 <= currentIndex < |questions| ==>
        var q := questions[currentIndex];
        var current := if q.id in old(hintLevels) then old(hintLevels)[q.id] else 0;
        hintLevels == old(hintLevels)[q.id := NextHintLevel(current, MaxHintLevel(q))]
    {
      if !(0 <= currentIndex < |questions|) {
        return;
      }
      var currentQuestion := questions[currentIndex];
      var current := if currentQuestion.id in hintLevels then hintLevels[currentQuestion.id] else 0;
      var maxLevel := MaxHintLevel(currentQuestion);
      hintLevels := hintLevels[currentQuestion.id := NextHintLevel(current, maxLevel)];
    }
  }
}
