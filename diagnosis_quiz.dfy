/** The submit step of the placement-test hook
    (features/diagnosis/hooks/use-diagnosis-quiz.ts): the chosen option text
    of every question is graded into the answers the scoring reads. */
module DiagnosisQuiz {
  import opened Common
  import opened Questions
  import opened DiagnosisScoring

  /** `answersById[question.id]`. */
  function Chosen(answersById: map<string, string>, id: string): Option<string>
  {
    if id in answersById then Some(answersById[id]) else None
  }

  function FormatAnswer(q: DiagnosisQuestion, answersById: map<string, string>): DiagnosisAnswer
  {
    DiagnosisAnswer(q.id, q.difficulty, CorrectOption(q.options) == Chosen(answersById, q.id), q.category)
  }

  /** `submit`: None when there are no questions (nothing is sent), otherwise
      the formatted answers handed to the submit mutation. */
  function Submit(questions: seq<DiagnosisQuestion>, answersById: map<string, string>): (r: Option<seq<DiagnosisAnswer>>)
    ensures r.None? <==> questions == []
    ensures r.Some? ==> |r.value| == |questions|
  {
    if |questions| == 0 then None
    else Some(seq(|questions|, i requires 0 <= i < |questions| => FormatAnswer(questions[i], answersById)))
  }

  /** One answer per question, in question order, with the question's id,
      difficulty and category; it is correct exactly when the chosen text is
      the first correct option's text, or when the question has no correct
      option and nothing was chosen. */
  lemma SubmitAnswers(questions: seq<DiagnosisQuestion>, answersById: map<string, string>)
    requires questions != []
    ensures forall i :: 0 <= i < |questions| ==>
      var a := Submit(questions, answersById).value[i];
      var q := questions[i];
      && a.questionId == q.id && a.difficulty == q.difficulty && a.category == q.category
      && (a.isCorrect <==>
            || (q.id in answersById && CorrectOption(q.options) == Some(answersById[q.id]))
            || (q.id !in answersById && forall j :: 0 <= j < |q.options| ==> !q.options[j].isCorrect))
  {
    forall i | 0 <= i < |questions|
      ensures var a := Submit(questions, answersById).value[i];
        var q := questions[i];
        (a.isCorrect <==>
            || (q.id in answersById && CorrectOption(q.options) == Some(answersById[q.id]))
            || (q.id !in answersById && forall j :: 0 <= j < |q.options| ==> !q.options[j].isCorrect))
    {
      CorrectOptionIsFirst(questions[i].options);
    }
  }
}
