/** The status of the two feature cards on the main page
    (views/main/lib/card-status.ts). */
module CardStatus {
  import opened Common

  datatype FeatureCardStatus = Available | Completed | Locked

  datatype DiagnosisStatus = DiagnosisStatus(hasCompleted: bool, canRetake: bool)

  /** `getDiagnosisCardStatus`; None is a status not loaded yet. */
  function GetDiagnosisCardStatus(diagnosisStatus: Option<DiagnosisStatus>): FeatureCardStatus
  {
    if diagnosisStatus.None? || !diagnosisStatus.value.hasCompleted then Available
    else if !diagnosisStatus.value.canRetake then Completed
    else Available
  }

  /** `getQuizCardStatus`. */
  function GetQuizCardStatus(diagnosisCompleted: bool): FeatureCardStatus
  {
    if diagnosisCompleted then Available else Locked
  }

  /** The placement-test card is never locked, and it shows as completed
      exactly when the test is done and may not be retaken. */
  lemma DiagnosisCardRules(s: Option<DiagnosisStatus>)
    ensures GetDiagnosisCardStatus(s) != Locked
    ensures GetDiagnosisCardStatus(s) == Completed <==> s.Some? && s.value.hasCompleted && !s.value.canRetake
  {
  }

  /** The quiz card opens exactly when the placement test is done. */
  lemma QuizCardRules(diagnosisCompleted: bool)
    ensures GetQuizCardStatus(diagnosisCompleted) == Available <==> diagnosisCompleted
    ensures GetQuizCardStatus(diagnosisCompleted) != Completed
  {
  }
}
