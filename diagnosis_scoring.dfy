/** The placement-test scoring of features/diagnosis/lib/scoring.ts: a
    difficulty-weighted score out of 100, its CEFR level, the categories
    answered with less than 60% accuracy, and the level to start studying at. */
module DiagnosisScoring {
  import opened Common
  import opened Sorting
  import opened DiagnosisConstants

  datatype DiagnosisAnswer = DiagnosisAnswer(questionId: string, difficulty: string, isCorrect: bool, category: string)

  datatype WeaknessArea = WeaknessArea(category: string, accuracy: real)

  datatype DiagnosisResult = DiagnosisResult(totalScore: int, cefrLevel: string,
                                             weaknessAreas: seq<WeaknessArea>, recommendedStartPoint: string)

  /** `DIFFICULTY_WEIGHTS[answer.difficulty] ?? 1`. */
  function AnswerWeight(a: DiagnosisAnswer): (w: nat)
    ensures 1 <= w <= 6
    ensures a.difficulty in CefrLevels ==> w == LevelIndex(a.difficulty) + 1
  {
    WeightIsRank();
    match DifficultyWeight(a.difficulty)
    case Some(w) => w
    case None => 1
  }

  /** `maxPossibleScore`: the weights of all answers added up. */
  function MaxScore(answers: seq<DiagnosisAnswer>): nat
  {
    if answers == [] then 0
    else MaxScore(answers[..|answers| - 1]) + AnswerWeight(answers[|answers| - 1])
  }

  /** `totalWeightedScore`: the weights of the correct answers added up. */
  function WeightedScore(answers: seq<DiagnosisAnswer>): nat
  {
    if answers == [] then 0
    else
      var last := answers[|answers| - 1];
      WeightedScore(answers[..|answers| - 1]) + (if last.isCorrect then AnswerWeight(last) else 0)
  }

  predicate AllCorrect(answers: seq<DiagnosisAnswer>)
  {
    forall i :: 0 <= i < |answers| ==> answers[i].isCorrect
  }

  predicate NoneCorrect(answers: seq<DiagnosisAnswer>)
  {
    forall i :: 0 <= i < |answers| ==> !answers[i].isCorrect
  }

  /** Each answer weighs 1 to 6; the weighted score reaches the maximum exactly
      when every answer is correct and is 0 exactly when none is. */
  lemma {:induction false} ScoreBounds(answers: seq<DiagnosisAnswer>)
    ensures |answers| <= MaxScore(answers) <= 6 * |answers|
    ensures WeightedScore(answers) <= MaxScore(answers)
    ensures WeightedScore(answers) == MaxScore(answers) <==> AllCorrect(answers)
    ensures WeightedScore(answers) == 0 <==> NoneCorrect(answers)
  {
    if answers != [] {
      var init := answers[..|answers| - 1];
      ScoreBounds(init);
      assert forall i :: 0 <= i < |init| ==> init[i] == answers[i];
      if !AllCorrect(init) {
        var i :| 0 <= i < |init| && !init[i].isCorrect;
        assert !answers[i].isCorrect;
      }
      if !NoneCorrect(init) {
        var i :| 0 <= i < |init| && init[i].isCorrect;
        assert answers[i].isCorrect;
      }
    }
  }


  /** The scoring loop of `calculateDiagnosisScore`. */
  method ScoreTotals(answers: seq<DiagnosisAnswer>) returns (totalWeightedScore: nat, maxPossibleScore: nat)
    ensures totalWeightedScore == WeightedScore(answers)
    ensures maxPossibleScore == MaxScore(answers)
  {
    totalWeightedScore := 0;
    maxPossibleScore := 0;
    for k := 0 to |answers|
      invariant totalWeightedScore == WeightedScore(answers[..k])
      invariant maxPossibleScore == MaxScore(answers[..k])
    {
      var answer := answers[k];
      PrefixStep(answers, k);
      var weight := AnswerWeight(answer);
      maxPossibleScore := maxPossibleScore + weight;
      if answer.isCorrect {
        totalWeightedScore := totalWeightedScore + weight;
      }
    }
    assert answers[..|answers|] == answers;
  }

  /** `totalScore`. */
  function TotalScore(answers: seq<DiagnosisAnswer>): int
  {
    RoundedPercent(WeightedScore(answers), MaxScore(answers))
  }

  /** The score is a percentage: 0 with no answers or none correct, 100 when
      every answer is correct. */
  lemma TotalScoreBounds(answers: seq<DiagnosisAnswer>)
    ensures 0 <= TotalScore(answers) <= 100
    ensures answers == [] || NoneCorrect(answers) ==> TotalScore(answers) == 0
    ensures answers != [] && AllCorrect(answers) ==> TotalScore(answers) == 100
  {
    ScoreBounds(answers);
    RoundedPercentBounds(WeightedScore(answers), MaxScore(answers));
  }

  /** `mapScoreToCEFR`. */
  function MapScoreToCefr(score: int): (level: string)
    ensures level in CefrLevels
  {
    if score >= 96 then "C2"
    else if score >= 81 then "C1"
    else if score >= 61 then "B2"
    else if score >= 41 then "B1"
    else if score >= 21 then "A2"
    else "A1"
  }

  /** The lower score bounds of A2, B1, B2, C1 and C2. */
  const LevelThresholds: seq<int> := [21, 41, 61, 81, 96]

  /** The level is the one whose rank is the number of thresholds the score
      reaches. */
  lemma CefrByThresholds(score: int)
    ensures LevelIndex(MapScoreToCefr(score)) == CountWhere(LevelThresholds, t => score >= t)
  {
    var p := t => score >= t;
    calc {
      CountWhere(LevelThresholds, p);
      (if score >= 21 then 1 else 0) + CountWhere(LevelThresholds[1..], p);
      { assert LevelThresholds[1..][1..] == [61, 81, 96] && LevelThresholds[1..][0] == 41; }
      (if score >= 21 then 1 else 0) + (if score >= 41 then 1 else 0) + CountWhere([61, 81, 96], p);
      { assert [61, 81, 96][1..] == [81, 96] && [81, 96][1..] == [96] && [96][1..] == []; }
      (if score >= 21 then 1 else 0) + (if score >= 41 then 1 else 0) + (if score >= 61 then 1 else 0)
        + (if score >= 81 then 1 else 0) + (if score >= 96 then 1 else 0);
    }
  }

  /** A higher score never maps to a lower level. */
  lemma CefrMonotone(s1: int, s2: int)
    requires s1 <= s2
    ensures LevelIndex(MapScoreToCefr(s1)) <= LevelIndex(MapScoreToCefr(s2))
  {
  }

  /** `{ correct, total }` of one category. */
  datatype CategoryStat = CategoryStat(correct: nat, total: nat)

  /** The statistics after counting one more answer. */
  function Count(s: CategoryStat, a: DiagnosisAnswer): CategoryStat
  {
    CategoryStat(s.correct + (if a.isCorrect then 1 else 0), s.total + 1)
  }

  /** The answers of category c, tallied. */
  function Tally(answers: seq<DiagnosisAnswer>, c: string): (s: CategoryStat)
    ensures s.correct <= s.total
    ensures s.total == 0 <==> forall i :: 0 <= i < |answers| ==> answers[i].category != c
  {
    if answers == [] then CategoryStat(0, 0)
    else
      var init := answers[..|answers| - 1];
      var last := answers[|answers| - 1];
      assert forall i :: 0 <= i < |init| ==> init[i] == answers[i];
      if last.category == c then Count(Tally(init, c), last) else Tally(init, c)
  }

  /** The categories met, once each, in the order of their first answer (the
      order of `Object.entries` for keys created by assignment). */
  function Categories(answers: seq<DiagnosisAnswer>): (cs: seq<string>)
    ensures forall c :: c in cs <==> exists i :: 0 <= i < |answers| && answers[i].category == c
    ensures forall i, j :: 0 <= i < j < |cs| ==> cs[i] != cs[j]
  {
    if answers == [] then []
    else
      var init := answers[..|answers| - 1];
      var last := answers[|answers| - 1];
      assert forall i :: 0 <= i < |init| ==> init[i] == answers[i];
      if last.category in Categories(init) then Categories(init) else Categories(init) + [last.category]
  }

  /** The first k + 1 answers' categories and statistics, from the first k's. */
  lemma CategoryStep(answers: seq<DiagnosisAnswer>, k: nat)
    requires k < |answers|
    ensures Categories(answers[..k + 1]) ==
      if answers[k].category in Categories(answers[..k]) then Categories(answers[..k])
      else Categories(answers[..k]) + [answers[k].category]
    ensures CategoryStatsOf(answers[..k + 1]) == Counted(CategoryStatsOf(answers[..k]), answers[k])
  {
    PrefixStep(answers, k);
    var before := CategoryStatsOf(answers[..k]);
    var after := CategoryStatsOf(answers[..k + 1]);
    var a := answers[k];
    var counted := Counted(before, a);
    assert after.Keys == counted.Keys;
    forall c | c in after
      ensures after[c] == counted[c]
    {
      if c == a.category && c !in before {
        assert Tally(answers[..k], c).total == 0;
      }
    }
  }

  /** One turn of the statistics loop: create the entry if missing, then count. */
  function Counted(stats: map<string, CategoryStat>, a: DiagnosisAnswer): map<string, CategoryStat>
  {
    var s := if a.category in stats then stats[a.category] else CategoryStat(0, 0);
    stats[a.category := Count(s, a)]
  }

  /** The statistics `analyzeWeaknesses` builds, as a map. */
  function CategoryStatsOf(answers: seq<DiagnosisAnswer>): (stats: map<string, CategoryStat>)
    ensures forall c :: c in stats <==> c in Categories(answers)
    ensures forall c :: c in stats ==> stats[c] == Tally(answers, c) && stats[c].total > 0
  {
    map c | c in Categories(answers) :: Tally(answers, c)
  }

  /** The statistics loop of `analyzeWeaknesses`: `order` lists the keys of
      `stats` in the order they were created. */
  method CategoryStats(answers: seq<DiagnosisAnswer>) returns (order: seq<string>, stats: map<string, CategoryStat>)
    ensures order == Categories(answers)
    ensures stats == CategoryStatsOf(answers)
  {
    order := [];
    stats := map[];
    for k := 0 to |answers|
      invariant order == Categories(answers[..k])
      invariant stats == CategoryStatsOf(answers[..k])
    {
      var answer := answers[k];
      CategoryStep(answers, k);
      ghost var before := stats;
      if answer.category !in stats {
        stats := stats[answer.category := CategoryStat(0, 0)];
        order := order + [answer.category];
      }
      stats := stats[answer.category := Count(stats[answer.category], answer)];
      CreateThenCount(before, answer);
    }
    assert answers[..|answers|] == answers;
  }

  /** Creating a missing entry and then counting is `Counted`. */
  lemma CreateThenCount(stats: map<string, CategoryStat>, a: DiagnosisAnswer)
    ensures var created := if a.category in stats then stats else stats[a.category := CategoryStat(0, 0)];
      created[a.category := Count(created[a.category], a)] == Counted(stats, a)
  {
  }

  /** `Object.entries(stats).map(...)`: each category with its accuracy. */
  function Areas(order: seq<string>, stats: map<string, CategoryStat>): (areas: seq<WeaknessArea>)
    requires forall c :: c in order ==> c in stats && stats[c].total > 0
    ensures |areas| == |order|
    ensures forall i :: 0 <= i < |order| ==>
      areas[i] == WeaknessArea(order[i], Percentage(stats[order[i]].correct, stats[order[i]].total))
  {
    if order == [] then []
    else [WeaknessArea(order[0], Percentage(stats[order[0]].correct, stats[order[0]].total))] + Areas(order[1..], stats)
  }

  predicate IsWeak(w: WeaknessArea)
  {
    w.accuracy < 60.0
  }

  /** The comparator `(a, b) => a.accuracy - b.accuracy`, as "a sorts no later than b". */
  predicate ByAccuracy(a: WeaknessArea, b: WeaknessArea)
  {
    a.accuracy - b.accuracy <= 0.0
  }

  /** The result of `analyzeWeaknesses`. */
  function Weaknesses(answers: seq<DiagnosisAnswer>): seq<WeaknessArea>
  {
    SortBy(Filter(Areas(Categories(answers), CategoryStatsOf(answers)), IsWeak), ByAccuracy)
  }

  /** `analyzeWeaknesses`. */
  method AnalyzeWeaknesses(answers: seq<DiagnosisAnswer>) returns (areas: seq<WeaknessArea>)
    ensures areas == Weaknesses(answers)
  {
    var order, stats := CategoryStats(answers);
    areas := SortBy(Filter(Areas(order, stats), IsWeak), ByAccuracy);
  }

  /** The weaknesses are exactly the answered categories whose accuracy,
      correct / total * 100, is below 60 (100 * correct < 60 * total), each
      reported with that accuracy, and they come in ascending accuracy. */
  lemma WeaknessesSpec(answers: seq<DiagnosisAnswer>)
    ensures forall w :: w in Weaknesses(answers) ==>
      && Tally(answers, w.category).total > 0
      && w.accuracy == Percentage(Tally(answers, w.category).correct, Tally(answers, w.category).total)
      && w.accuracy < 60.0
      && 100 * Tally(answers, w.category).correct < 60 * Tally(answers, w.category).total
    ensures forall c :: Tally(answers, c).total > 0 && 100 * Tally(answers, c).correct < 60 * Tally(answers, c).total ==>
      WeaknessArea(c, Percentage(Tally(answers, c).correct, Tally(answers, c).total)) in Weaknesses(answers)
    ensures SortedBy(Weaknesses(answers), ByAccuracy)
    ensures |Weaknesses(answers)| <= |Categories(answers)|
  {
    forall w | w in Weaknesses(answers)
      ensures && Tally(answers, w.category).total > 0
              && w.accuracy == Percentage(Tally(answers, w.category).correct, Tally(answers, w.category).total)
              && w.accuracy < 60.0
              && 100 * Tally(answers, w.category).correct < 60 * Tally(answers, w.category).total
    {
      ReportedIsWeak(answers, w);
    }
    forall c | Tally(answers, c).total > 0 && 100 * Tally(answers, c).correct < 60 * Tally(answers, c).total
      ensures WeaknessArea(c, Percentage(Tally(answers, c).correct, Tally(answers, c).total)) in Weaknesses(answers)
    {
      WeakCategoryReported(answers, c);
    }
    assert TotalPreorder(ByAccuracy);
    SortBySorted(Filter(Areas(Categories(answers), CategoryStatsOf(answers)), IsWeak), ByAccuracy);
  }

  lemma ReportedIsWeak(answers: seq<DiagnosisAnswer>, w: WeaknessArea)
    requires w in Weaknesses(answers)
    ensures Tally(answers, w.category).total > 0
    ensures w.accuracy == Percentage(Tally(answers, w.category).correct, Tally(answers, w.category).total)
    ensures w.accuracy < 60.0
    ensures 100 * Tally(answers, w.category).correct < 60 * Tally(answers, w.category).total
  {
    var areas := Areas(Categories(answers), CategoryStatsOf(answers));
    SortByMembers(Filter(areas, IsWeak), ByAccuracy);
    assert w in areas;
    var i :| 0 <= i < |areas| && areas[i] == w;
    var t := Tally(answers, w.category);
    PercentageBelow(t.correct, t.total, 60);
  }

  /** Every answered category has its entry, with its accuracy. */
  lemma CategoryArea(answers: seq<DiagnosisAnswer>, c: string)
    requires Tally(answers, c).total > 0
    ensures WeaknessArea(c, Percentage(Tally(answers, c).correct, Tally(answers, c).total))
      in Areas(Categories(answers), CategoryStatsOf(answers))
  {
    var cs := Categories(answers);
    var i :| 0 <= i < |answers| && answers[i].category == c;
    assert c in cs;
    var j :| 0 <= j < |cs| && cs[j] == c;
    assert Areas(cs, CategoryStatsOf(answers))[j].category == c;
  }

  lemma WeakCategoryReported(answers: seq<DiagnosisAnswer>, c: string)
    requires Tally(answers, c).total > 0 && 100 * Tally(answers, c).correct < 60 * Tally(answers, c).total
    ensures WeaknessArea(c, Percentage(Tally(answers, c).correct, Tally(answers, c).total)) in Weaknesses(answers)
  {
    var t := Tally(answers, c);
    var areas := Areas(Categories(answers), CategoryStatsOf(answers));
    CategoryArea(answers, c);
    PercentageBelow(t.correct, t.total, 60);
    assert IsWeak(WeaknessArea(c, Percentage(t.correct, t.total)));
    SortByMembers(Filter(areas, IsWeak), ByAccuracy);
  }

  /** `getRecommendedLevel`. */
  function GetRecommendedLevel(cefrLevel: string, weaknessAreas: seq<WeaknessArea>): string
  {
    if |weaknessAreas| >= 3 then
      var currentIndex := LevelIndex(cefrLevel);
      if currentIndex > 0 then CefrLevels[currentIndex - 1] else cefrLevel
    else cefrLevel
  }

  /** The start point is the level itself, or one level lower when there are
      at least three weak categories and a lower level exists. */
  lemma RecommendedLevelStep(cefrLevel: string, weaknessAreas: seq<WeaknessArea>)
    requires cefrLevel in CefrLevels
    ensures var r := GetRecommendedLevel(cefrLevel, weaknessAreas);
      && r in CefrLevels
      && LevelIndex(r) == if |weaknessAreas| >= 3 then Max(LevelIndex(cefrLevel) - 1, 0) else LevelIndex(cefrLevel)
  {
    LevelsDistinct();
  }

  /** `calculateDiagnosisScore`. */
  method CalculateDiagnosisScore(answers: seq<DiagnosisAnswer>) returns (r: DiagnosisResult)
    ensures r.totalScore == TotalScore(answers) && 0 <= r.totalScore <= 100
    ensures r.cefrLevel == MapScoreToCefr(r.totalScore)
    ensures r.weaknessAreas == Weaknesses(answers)
    ensures r.recommendedStartPoint == GetRecommendedLevel(r.cefrLevel, r.weaknessAreas)
    ensures r.recommendedStartPoint in CefrLevels
  {
    var totalWeightedScore, maxPossibleScore := ScoreTotals(answers);
    var totalScore := RoundedPercent(totalWeightedScore, maxPossibleScore);
    TotalScoreBounds(answers);
    var cefrLevel := MapScoreToCefr(totalScore);
    var weaknessAreas := AnalyzeWeaknesses(answers);
    RecommendedLevelStep(cefrLevel, weaknessAreas);
    r := DiagnosisResult(totalScore, cefrLevel, weaknessAreas, GetRecommendedLevel(cefrLevel, weaknessAreas));
  }
}
