/** Experience points for one quiz question (features/quiz/lib/quiz-xp.ts):
    a correct answer earns the base XP scaled down by the hint used. */
module QuizXp {
  import opened Common

  /** 0: no hint, 1: the context hint, 2: the full hint. */
  type HintLevel = h: int | 0 <= h <= 2

  /** `BASE_XP_PER_QUESTION`. */
  const BaseXpPerQuestion: nat := 10

  /** `QUIZ_HINT_XP_MULTIPLIER`, in tenths (1.0, 0.9, 0.6). */
  function MultiplierTenths(hintLevel: HintLevel): nat
  {
    if hintLevel == 0 then 10 else if hintLevel == 1 then 9 else 6
  }

  /** `calculateQuestionXP`: floor(base * multiplier) for a correct answer. */
  function CalculateQuestionXp(isCorrect: bool, hintLevel: HintLevel): nat
  {
    if !isCorrect then 0 else FloorDiv(BaseXpPerQuestion * MultiplierTenths(hintLevel), 10)
  }

  /** A wrong answer earns nothing; a right one earns 10, 9 or 6 XP by hint
      level, never more than the base. */
  lemma XpTable(isCorrect: bool, hintLevel: HintLevel)
    ensures !isCorrect ==> CalculateQuestionXp(isCorrect, hintLevel) == 0
    ensures isCorrect ==> CalculateQuestionXp(isCorrect, hintLevel) == [10, 9, 6][hintLevel]
    ensures CalculateQuestionXp(isCorrect, hintLevel) <= BaseXpPerQuestion
  {
  }

  /** More help never earns more. */
  lemma XpNonIncreasing(isCorrect: bool, h1: HintLevel, h2: HintLevel)
    requires h1 <= h2
    ensures CalculateQuestionXp(isCorrect, h2) <= CalculateQuestionXp(isCorrect, h1)
  {
  }
}
