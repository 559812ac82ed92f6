/** The placement test's constants (features/diagnosis/constants/index.ts):
    the CEFR levels in ascending order and the score weight of a question of
    each level. */
module DiagnosisConstants {
  import opened Common

  /** `CEFR_LEVELS`. */
  const CefrLevels: seq<string> := ["A1", "A2", "B1", "B2", "C1", "C2"]

  /** `DIFFICULTY_WEIGHTS`. */
  const DifficultyWeights: map<string, nat> := map["A1" := 1, "A2" := 2, "B1" := 3, "B2" := 4, "C1" := 5, "C2" := 6]

  /** `DIFFICULTY_WEIGHTS[difficulty]`: None for a difficulty the table lacks. */
  function DifficultyWeight(difficulty: string): (w: Option<nat>)
    ensures w.Some? <==> difficulty in CefrLevels
    ensures w.Some? ==> 1 <= w.value <= 6
  {
    if difficulty in DifficultyWeights then Some(DifficultyWeights[difficulty]) else None
  }

  /** `CEFR_LEVELS.indexOf(level)`: the position of the level, or -1. */
  function LevelIndex(level: string): (i: int)
    ensures -1 <= i < |CefrLevels|
    ensures i == -1 <==> level !in CefrLevels
    ensures i >= 0 ==> CefrLevels[i] == level
  {
    if level == "A1" then 0
    else if level == "A2" then 1
    else if level == "B1" then 2
    else if level == "B2" then 3
    else if level == "C1" then 4
    else if level == "C2" then 5
    else -1
  }

  /** The six levels are listed once each. */
  lemma LevelsDistinct()
    ensures forall i, j :: 0 <= i < j < |CefrLevels| ==> CefrLevels[i] != CefrLevels[j]
  {
  }

  /** Every level of the list has a weight, its position plus one, and the
      table weighs nothing else. */
  lemma WeightIsRank()
    ensures forall i :: 0 <= i < |CefrLevels| ==> DifficultyWeight(CefrLevels[i]) == Some(i + 1)
    ensures forall d :: d in DifficultyWeights <==> d in CefrLevels
  {
  }

  /** A harder level always weighs more. */
  lemma WeightsIncrease(harder: string, easier: string)
    requires harder in CefrLevels && easier in CefrLevels
    requires LevelIndex(easier) < LevelIndex(harder)
    ensures DifficultyWeight(easier).value < DifficultyWeight(harder).value
  {
    WeightIsRank();
  }
}
