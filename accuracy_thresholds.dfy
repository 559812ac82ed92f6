/** The accuracy bands of features/diagnosis/constants/accuracy-thresholds.ts:
    a category's accuracy (a percentage) picks one of four display styles. */
module AccuracyThresholds {

  /** `ACCURACY_THRESHOLDS`. */
  const Weak: real := 60.0
  const Moderate: real := 75.0
  const Good: real := 80.0

  /** The lower edge of the orange band, written inline in the source. */
  const Focus: real := 40.0

  datatype AccuracyStyle = AccuracyStyle(gradient: string, bg: string, border: string, emoji: string, labelText: string)

  const GoodStyle := AccuracyStyle("from-green-500 to-emerald-600", "bg-green-50", "border-green-200", "✅", "잘하고 있어요")
  const EffortStyle := AccuracyStyle("from-amber-500 to-orange-600", "bg-yellow-50", "border-yellow-200", "💪", "조금 더 노력")
  const FocusStyle := AccuracyStyle("from-orange-500 to-red-500", "bg-orange-50", "border-orange-200", "📚", "집중 학습 필요")
  const AlertStyle := AccuracyStyle("from-red-500 to-pink-600", "bg-red-50", "border-red-200", "⚠️", "집중 학습 필요")

  const FocusLabel := "집중 학습 필요"

  /** The thresholds are ordered. */
  lemma ThresholdsOrdered()
    ensures Focus < Weak < Moderate < Good
  {
  }

  /** `getAccuracyStyle`. */
  function GetAccuracyStyle(accuracy: real): (s: AccuracyStyle)
    ensures accuracy >= Good ==> s == GoodStyle
    ensures Weak <= accuracy < Good ==> s == EffortStyle
    ensures Focus <= accuracy < Weak ==> s == FocusStyle
    ensures accuracy < Focus ==> s == AlertStyle
  {
    if accuracy >= Good then GoodStyle
    else if accuracy >= Weak then EffortStyle
    else if accuracy >= Focus then FocusStyle
    else AlertStyle
  }

  /** The "needs focused study" label is shown exactly below the weak threshold. */
  lemma FocusLabelBelowWeak(accuracy: real)
    ensures GetAccuracyStyle(accuracy).labelText == FocusLabel <==> accuracy < Weak
  {
    assert GoodStyle.labelText[0] != FocusLabel[0];
    assert EffortStyle.labelText[0] != FocusLabel[0];
  }

  /** The band's rank: 0 for the red band up to 3 for the green one. */
  function Rank(s: AccuracyStyle): int
  {
    if s == GoodStyle then 3
    else if s == EffortStyle then 2
    else if s == FocusStyle then 1
    else 0
  }

  /** The four styles are distinct. */
  lemma StylesDistinct()
    ensures GoodStyle != EffortStyle && GoodStyle != FocusStyle && GoodStyle != AlertStyle
    ensures EffortStyle != FocusStyle && EffortStyle != AlertStyle && FocusStyle != AlertStyle
  {
    assert GoodStyle.bg[3] != EffortStyle.bg[3] && GoodStyle.bg[3] != FocusStyle.bg[3];
    assert GoodStyle.bg[3] != AlertStyle.bg[3] && EffortStyle.bg[3] != FocusStyle.bg[3];
    assert EffortStyle.bg[3] != AlertStyle.bg[3] && FocusStyle.bg[3] != AlertStyle.bg[3];
  }

  /** Higher accuracy never gets a worse band. */
  lemma BandsMonotone(a: real, b: real)
    requires a <= b
    ensures Rank(GetAccuracyStyle(a)) <= Rank(GetAccuracyStyle(b))
  {
    StylesDistinct();
  }
}
