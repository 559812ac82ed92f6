/** The question shapes of entities/question/types.ts that grading reads:
    a question's options, one or more of them flagged correct. */
module Questions {
  import opened Common

  datatype QuestionOption = QuestionOption(text: string, isCorrect: bool)

  /** A placement-test question; its hint, word and sentence are not read here. */
  datatype DiagnosisQuestion = DiagnosisQuestion(id: string, difficulty: string, category: string,
                                                 options: seq<QuestionOption>)

  /** `question.options.find((opt) => opt.isCorrect)?.text`. */
  function CorrectOption(options: seq<QuestionOption>): Option<string>
  {
    if options == [] then None
    else if options[0].isCorrect then Some(options[0].text)
    else CorrectOption(options[1..])
  }

  /** `find` yields the text of the first option flagged correct, and nothing
      exactly when no option is. */
  lemma {:induction false} CorrectOptionIsFirst(options: seq<QuestionOption>)
    ensures CorrectOption(options).None? <==> forall i :: 0 <= i < |options| ==> !options[i].isCorrect
    ensures CorrectOption(options).Some? ==>
      exists i :: && 0 <= i < |options| && options[i].isCorrect && options[i].text == CorrectOption(options).value
                  && forall j :: 0 <= j < i ==> !options[j].isCorrect
  {
    if options != [] && !options[0].isCorrect {
      var rest := options[1..];
      CorrectOptionIsFirst(rest);
      assert forall i :: 0 < i < |options| ==> options[i] == rest[i - 1];
      if CorrectOption(rest).Some? {
        var i :| && 0 <= i < |rest| && rest[i].isCorrect && rest[i].text == CorrectOption(rest).value
                 && forall j :: 0 <= j < i ==> !rest[j].isCorrect;
        assert options[i + 1] == rest[i];
      }
    }
  }
}
