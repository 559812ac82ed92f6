/** The flashcard scheduler (features/flashcard/lib/srs-algorithm.ts): a
    simplified SM-2 variant with a fixed 1/3/7-day ladder. Ease factors are
    integer hundredths (2.5 is 250) and instants are milliseconds; the current
    time `now` is a parameter. */
module SrsAlgorithm {
  import opened Common

  datatype MasteryLevel = New | Learning | Reviewing | Mastered

  datatype ReviewQuality = Forgot | Hard | Normal | Easy

  datatype SrsCard = SrsCard(
    repetitions: int,
    easeFactor: int,
    interval: int,
    lastReviewDate: Option<int>,
    masteryLevel: MasteryLevel)

  datatype SrsResult = SrsResult(
    repetitions: int,
    easeFactor: int,
    interval: int,
    nextReviewDate: int,
    masteryLevel: MasteryLevel)

  /** DEFAULT_INTERVALS, in days. */
  const NewInterval := 1
  const LearningInterval := 3
  const ReviewingInterval := 7
  const MasteredInterval := 180

  /** The ease factor floor, 1.3. */
  const MinEase := 130

  /** The ease penalty of an incorrect review, 0.2. */
  const LapsePenalty := 20

  /** `addDays`, with every day 24 hours long. */
  function AddDays(date: int, days: int): (r: int)
    ensures r - date == days * DayMs
  {
    date + days * DayMs
  }

  /** `isReviewDue`: the scheduled instant has been reached. */
  predicate IsReviewDue(nextReviewDate: int, now: int)
  {
    nextReviewDate <= now
  }

  /** `getEaseFactorAdjustment`, in hundredths. */
  function EaseAdjustment(quality: ReviewQuality): (d: int)
    ensures d > 0 <==> quality == Easy
    ensures d == 0 <==> quality == Normal
    ensures -LapsePenalty <= d <= 15
  {
    match quality
    case Easy => 15
    case Normal => 0
    case Hard => -15
    case Forgot => -20
  }

  /** The ease table: easy +0.15, normal 0, hard -0.15, forgot -0.2 (the
      same as the lapse penalty), so a harder answer always moves the ease
      down further. */
  lemma EaseAdjustmentTable()
    ensures EaseAdjustment(Easy) == 15
    ensures EaseAdjustment(Normal) == 0
    ensures EaseAdjustment(Hard) == -15
    ensures EaseAdjustment(Forgot) == -LapsePenalty
    ensures EaseAdjustment(Forgot) < EaseAdjustment(Hard) < EaseAdjustment(Normal) < EaseAdjustment(Easy)
  {
  }

  /** `determineMasteryLevel`. */
  function DetermineMasteryLevel(repetitions: int, interval: int): MasteryLevel
  {
    if repetitions == 0 then New
    else if repetitions <= 2 then Learning
    else if repetitions <= 7 then Reviewing
    else if repetitions >= 8 && interval >= MasteredInterval then Mastered
    else Reviewing
  }

  /** The mastery table read row by row, in both directions (for a non-negative
      repetition count, which is all the scheduler ever produces). */
  lemma MasteryTable(repetitions: int, interval: int)
    requires repetitions >= 0
    ensures DetermineMasteryLevel(repetitions, interval) == New <==> repetitions == 0
    ensures DetermineMasteryLevel(repetitions, interval) == Learning <==> 1 <= repetitions <= 2
    ensures DetermineMasteryLevel(repetitions, interval) == Mastered <==>
              repetitions >= 8 && interval >= 180
    ensures DetermineMasteryLevel(repetitions, interval) == Reviewing <==>
              (3 <= repetitions <= 7 || (repetitions >= 8 && interval < 180))
  {
  }

  /** Mastery never drops when the repetition count and the interval both grow. */
  lemma MasteryMonotone(r1: int, i1: int, r2: int, i2: int)
    requires 0 <= r1 <= r2 && i1 <= i2
    ensures Rank(DetermineMasteryLevel(r1, i1)) <= Rank(DetermineMasteryLevel(r2, i2))
  {
  }

  function Rank(m: MasteryLevel): nat
  {
    match m
    case New => 0
    case Learning => 1
    case Reviewing => 2
    case Mastered => 3
  }

  /** The new ease factor: penalised by 0.2 on a lapse, adjusted by quality
      otherwise, never below the floor. */
  function NextEase(easeFactor: int, quality: ReviewQuality, isCorrect: bool): (ef: int)
    ensures ef >= MinEase
    ensures ef == MinEase || ef == easeFactor + (if isCorrect then EaseAdjustment(quality) else -LapsePenalty)
    ensures ef >= easeFactor + (if isCorrect then EaseAdjustment(quality) else -LapsePenalty)
  {
    Max(MinEase, easeFactor + (if isCorrect then EaseAdjustment(quality) else -LapsePenalty))
  }

  /** The interval after a correct review that brings the count to `repetitions`:
      the fixed ladder first, then the carried-in interval times the new ease. */
  function LadderInterval(repetitions: int, interval: int, easeFactor: int): int
  {
    if repetitions == 1 then NewInterval
    else if repetitions == 2 then LearningInterval
    else if repetitions == 3 then ReviewingInterval
    else RoundDiv(interval * easeFactor, 100)
  }

  /** `calculateNextReview` as a function of its inputs: the lapse branch resets
      the count and the interval, the correct branch climbs the ladder. */
  function NextReview(card: SrsCard, quality: ReviewQuality, isCorrect: bool, now: int): SrsResult
  {
    var repetitions := if isCorrect then card.repetitions + 1 else 0;
    var easeFactor := NextEase(card.easeFactor, quality, isCorrect);
    var interval := if isCorrect then LadderInterval(repetitions, card.interval, easeFactor) else NewInterval;
    var mastery := if isCorrect then DetermineMasteryLevel(repetitions, interval) else New;
    SrsResult(repetitions, easeFactor, interval, AddDays(now, interval), mastery)
  }

  /** `calculateNextReview` step by step, as the source updates its locals:
      the early return of a lapse, then the increment, the ease adjustment and
      the interval if-chain. */
  method CalculateNextReview(card: SrsCard, quality: ReviewQuality, isCorrect: bool, now: int)
    returns (r: SrsResult)
    ensures r == NextReview(card, quality, isCorrect, now)
  {
    var repetitions, easeFactor, interval := card.repetitions, card.easeFactor, card.interval;
    if !isCorrect {
      repetitions := 0;
      interval := NewInterval;
      easeFactor := Max(MinEase, easeFactor - LapsePenalty);
      return SrsResult(repetitions, easeFactor, interval, AddDays(now, interval), New);
    }
    repetitions := repetitions + 1;
    var efAdjustment := EaseAdjustment(quality);
    easeFactor := Max(MinEase, easeFactor + efAdjustment);
    if repetitions == 1 {
      interval := NewInterval;
    } else if repetitions == 2 {
      interval := LearningInterval;
    } else if repetitions == 3 {
      interval := ReviewingInterval;
    } else {
      interval := RoundDiv(interval * easeFactor, 100);
    }
    var masteryLevel := DetermineMasteryLevel(repetitions, interval);
    r := SrsResult(repetitions, easeFactor, interval, AddDays(now, interval), masteryLevel);
  }

  /** A lapse resets the count to 0, the interval to one day and the mastery to
      new, whatever the quality and whatever the history; the ease loses 0.2
      but never falls below 1.3. */
  lemma IncorrectReviewResets(card: SrsCard, quality: ReviewQuality, now: int)
    ensures var r := NextReview(card, quality, false, now);
      && r.repetitions == 0 && r.interval == 1 && r.masteryLevel == New
      && r.easeFactor == Max(130, card.easeFactor - 20)
      && r.nextReviewDate == now + DayMs
  {
  }

  /** A correct review adds one repetition and moves the ease by the quality's
      delta (easy +0.15, normal 0, hard -0.15, forgot -0.2), floored at 1.3;
      the interval follows the 1/3/7 ladder and then the carried-in interval
      times the new ease, rounded. */
  lemma CorrectReviewAdvances(card: SrsCard, quality: ReviewQuality, now: int)
    ensures var r := NextReview(card, quality, true, now);
      && r.repetitions == card.repetitions + 1
      && r.easeFactor == Max(130, card.easeFactor + EaseAdjustment(quality))
      && (r.repetitions == 1 ==> r.interval == 1)
      && (r.repetitions == 2 ==> r.interval == 3)
      && (r.repetitions == 3 ==> r.interval == 7)
      && (r.repetitions !in {1, 2, 3} ==>
            200 * r.interval - 100 <= 2 * card.interval * r.easeFactor < 200 * r.interval + 100)
  {
  }

  /** The mastery label depends only on the returned repetition count and
      interval, never on the quality, in both branches. */
  lemma MasteryFollowsResult(card: SrsCard, quality: ReviewQuality, isCorrect: bool, now: int)
    ensures var r := NextReview(card, quality, isCorrect, now);
      r.masteryLevel == DetermineMasteryLevel(r.repetitions, r.interval)
  {
  }

  /** The card invariants: the ease never drops below 1.3, and an interval of at
      least one day stays at least one day. */
  lemma ResultKeepsInvariants(card: SrsCard, quality: ReviewQuality, isCorrect: bool, now: int)
    requires card.interval >= 1
    ensures var r := NextReview(card, quality, isCorrect, now);
      r.easeFactor >= 130 && r.interval >= 1
  {
    var r := NextReview(card, quality, isCorrect, now);
    if isCorrect && r.repetitions !in {1, 2, 3} {
      assert card.interval * r.easeFactor >= 130 by {
        MulMonotone(card.interval, r.easeFactor);
      }
    }
  }

  lemma MulMonotone(a: int, b: int)
    requires a >= 1 && b >= 130
    ensures a * b >= 130
  {
    assert a * b >= 1 * b;
  }

  /** The next review falls exactly `interval` days after the review, so the
      card becomes due at that instant and not a millisecond earlier. */
  lemma DueExactlyAfterInterval(card: SrsCard, quality: ReviewQuality, isCorrect: bool, now: int, t: int)
    ensures var r := NextReview(card, quality, isCorrect, now);
      IsReviewDue(r.nextReviewDate, t) <==> t >= now + r.interval * DayMs
  {
  }

  /** The schedule is not idempotent: in the multiplying phase (from the fourth
      repetition on) a correct review of a card whose interval is at least two
      days strictly lengthens the interval, because the ease is at least 1.3. */
  lemma {:induction false} CorrectReviewGrowsInterval(card: SrsCard, quality: ReviewQuality, now: int)
    requires card.repetitions >= 3 && card.interval >= 2
    ensures NextReview(card, quality, true, now).interval > card.interval
  {
    var r := NextReview(card, quality, true, now);
    var i := card.interval;
    var e := r.easeFactor;
    assert 2 * i * e >= 2 * i * 130 by {
      MulLe(2 * i, 130, e);
    }
    assert 200 * r.interval + 100 > 2 * i * e;
    assert 200 * r.interval + 100 > 260 * i;
    assert 60 * i >= 120;
  }

  lemma MulLe(a: int, b: int, c: int)
    requires a >= 0 && b <= c
    ensures a * b <= a * c
  {
  }

  /** The concrete walk through the ladder: a new card reviewed normal, normal,
      easy, normal has intervals 1, 3, 7, 19 days, and a lapse afterwards starts
      over with ease 2.45. */
  lemma LadderScenario(now: int)
    ensures var c0 := SrsCard(0, 250, 1, None, New);
      var r1 := NextReview(c0, Normal, true, now);
      var c1 := SrsCard(r1.repetitions, r1.easeFactor, r1.interval, Some(now), r1.masteryLevel);
      var r2 := NextReview(c1, Normal, true, now);
      var c2 := SrsCard(r2.repetitions, r2.easeFactor, r2.interval, Some(now), r2.masteryLevel);
      var r3 := NextReview(c2, Easy, true, now);
      var c3 := SrsCard(r3.repetitions, r3.easeFactor, r3.interval, Some(now), r3.masteryLevel);
      var r4 := NextReview(c3, Normal, true, now);
      var c4 := SrsCard(r4.repetitions, r4.easeFactor, r4.interval, Some(now), r4.masteryLevel);
      var r5 := NextReview(c4, Forgot, false, now);
      && r1 == SrsResult(1, 250, 1, now + DayMs, Learning)
      && r2 == SrsResult(2, 250, 3, now + 3 * DayMs, Learning)
      && r3 == SrsResult(3, 265, 7, now + 7 * DayMs, Reviewing)
      && r4 == SrsResult(4, 265, 19, now + 19 * DayMs, Reviewing)
      && r5 == SrsResult(0, 245, 1, now + DayMs, New)
  {
  }

  /** The validator lets `forgot` arrive with isCorrect = true; the scheduler
      then takes the correct branch, counts a repetition and applies the -0.2
      delta of `getEaseFactorAdjustment`. */
  lemma ForgotMarkedCorrect(card: SrsCard, now: int)
    ensures var r := NextReview(card, Forgot, true, now);
      r.repetitions == card.repetitions + 1 && r.easeFactor == Max(130, card.easeFactor - 20)
  {
  }
}
