# Vocabulary trainer core, modelled in Dafny

This project models the logic of a Korean-English vocabulary trainer: a
web application with flashcards, a CEFR placement test and daily quizzes.
Its centre is the flashcard scheduler. This is a simplified SM-2: an ease
factor, a fixed 1/3/7-day ladder for the first three correct reviews, and
then the interval multiplied by the ease.

Around the scheduler sit:
- the request validators and the service layer that stores one record per
  (user, word) pair;
- the review endpoint, which records a batch of reviews, stores a session and
  awards XP and the daily streak;
- the streak rules and the one-off streak migration;
- the placement-test scoring, its constants and its accuracy bands;
- quiz XP and the quiz submission endpoint;
- the quiz answer-sheet and navigation hooks;
- the toast list;
- `countBy`, the main page's card status, the placement-test answer
  formatting and the recent-activity feed;
- the two data scripts that merge and extend the vocabulary list.

Conventions of the model:
- Ease factors are integer hundredths (2.5 is 250).
- Instants are integer milliseconds since the epoch. The clock is a
  parameter `now`.
- A calendar date is its day number. A Korean date is the UTC date of the
  instant plus nine hours.
- `Math.round(n / d)` is `RoundDiv`, which rounds half up. Percentages
  compared with whole-number thresholds are compared exactly, by
  cross-multiplication.
- The database becomes fields of a class: `SrsStore` for the flashcard
  tables, `QuizStore` for the quiz tables. Route handlers become methods
  on those classes. The signed-in user is an `Option<string>`.
- JavaScript's stable `Array.prototype.sort` is `Sorting.SortBy`, an
  insertion sort proved sorted, a permutation and stable.
- `localeCompare` is an abstract total preorder `wordLe`. `toLowerCase` is
  ASCII lowercasing.

Each loop of the source is a method with loop invariants. The method is
proved equal to a specification function, and the properties are proved
about that function.

Two behaviours of the code are worth knowing:
- `reviewEntrySchema` (features/flashcard/lib/srs-validation.ts:16-21) does
  not check `quality` against `isCorrect`. So `quality = "forgot"` with
  `isCorrect = true` is accepted, and the scheduler then takes its correct
  branch (see `SrsAlgorithm.ForgotMarkedCorrect` and
  `SrsValidation.EntryRoundTrip`).
- The merge script (prisma/merge-vocabulary.ts:47-52) filters each expansion
  file against `existingWords` before it adds any of that file's words. The
  per-entry `existingWords.add` shows that appended entries are meant never
  to repeat a word. Even so, case variants inside one file all get through;
  see "## Findings". The merge as written is `MergeVocabulary.Merged`, built by
  `MergeFiles`. The script method `MergeVocabularies` uses the corrected
  merge.

## Model

| member | source | states |
|---|---|---|
| SrsAlgorithm.AddDays | features/flashcard/lib/srs-algorithm.ts:162-166 | the result lies exactly `days` 24-hour days after the date |
| SrsAlgorithm.EaseAdjustment | features/flashcard/lib/srs-algorithm.ts:106-117 | the delta is positive only for easy, zero only for normal, and lies within -0.2..+0.15 |
| SrsAlgorithm.MasteryTable | features/flashcard/lib/srs-algorithm.ts:128-143 | each mastery level holds exactly on its row of the table: new iff 0 repetitions, learning iff 1-2, mastered iff at least 8 repetitions and an interval of at least 180 days, reviewing otherwise |
| SrsAlgorithm.MasteryMonotone | features/flashcard/lib/srs-algorithm.ts:128-143 | more repetitions and a longer interval never give a lower mastery level |
| SrsAlgorithm.EaseAdjustmentTable | features/flashcard/lib/srs-algorithm.ts:106-117 | easy +0.15, normal 0, hard -0.15, forgot -0.2 (the lapse penalty), strictly decreasing in that order |
| SrsAlgorithm.NextEase | features/flashcard/lib/srs-algorithm.ts:61-77 | the new ease is never below 1.3 and is either 1.3 or the old ease plus the quality's delta (minus 0.2 on a lapse) |
| SrsAlgorithm.CalculateNextReview | features/flashcard/lib/srs-algorithm.ts:50-101 | the step-by-step computation returns the scheduler's result `NextReview` |
| SrsAlgorithm.IncorrectReviewResets | features/flashcard/lib/srs-algorithm.ts:58-69 | a lapse gives 0 repetitions, a 1-day interval, mastery new, ease max(1.3, old - 0.2) and a next review one day later, for any quality and history |
| SrsAlgorithm.CorrectReviewAdvances | features/flashcard/lib/srs-algorithm.ts:71-89 | a correct review adds one repetition, moves the ease by the quality's delta floored at 1.3, gives intervals 1, 3 and 7 days for repetitions 1-3 and afterwards round(old interval × new ease) |
| SrsAlgorithm.MasteryFollowsResult | features/flashcard/lib/srs-algorithm.ts:128-143 | the returned mastery is determined by the returned repetitions and interval alone |
| SrsAlgorithm.ResultKeepsInvariants | features/flashcard/lib/srs-algorithm.ts:61-89 | the ease stays at least 1.3 and an interval of at least one day stays at least one day |
| SrsAlgorithm.DueExactlyAfterInterval | features/flashcard/lib/srs-algorithm.ts:151-153 | the card is due at an instant exactly when `interval` days have passed since the review |
| SrsAlgorithm.CorrectReviewGrowsInterval | features/flashcard/lib/srs-algorithm.ts:86-88 | past the ladder, with an interval of at least 2 days, a correct review strictly lengthens the interval |
| SrsAlgorithm.LadderScenario | features/flashcard/lib/srs-algorithm.ts:50-101 | a new card reviewed normal, normal, easy, normal gets intervals 1, 3, 7, 19 days; a lapse then resets it with ease 2.45 |
| SrsAlgorithm.ForgotMarkedCorrect | features/flashcard/lib/srs-algorithm.ts:73-115 | `forgot` marked correct counts a repetition and takes the -0.2 delta |
| SrsValidation.ParseQuality | features/flashcard/lib/srs-validation.ts:10 | accepted exactly for the four quality names, and the accepted value prints back to the input |
| SrsValidation.ParseStudyMode | features/flashcard/lib/srs-validation.ts:13 | accepted exactly for the seven study-mode names, and the accepted value prints back to the input |
| SrsValidation.ParseNonNegativeInt | features/flashcard/lib/srs-validation.ts:20-30 | accepted exactly for non-negative whole numbers, returned unchanged |
| SrsValidation.ParseReviewEntry | features/flashcard/lib/srs-validation.ts:16-21 | accepted exactly for an object with a non-empty id, a quality name, any boolean and a non-negative integer time |
| SrsValidation.EntryRoundTrip | features/flashcard/lib/srs-validation.ts:16-21 | every entry with a non-empty id, including forgot with isCorrect true, passes validation unchanged |
| SrsValidation.ParseEntries | features/flashcard/lib/srs-validation.ts:24-28 | an array is accepted iff every element is, element by element |
| SrsValidation.ParseReviewRequest | features/flashcard/lib/srs-validation.ts:24-31 | accepted iff 1 to 100 valid entries, a study mode and a non-negative integer duration; the entries are kept in order, and the mode and the duration are the ones given |
| SrsValidation.ParseSessionQuery | features/flashcard/lib/srs-validation.ts:34-37 | accepted iff mode is absent, review or new and limit is absent or an integer in 1..50; the mode is new exactly when "new" is given, otherwise review; the limit is the given number, or 20 when the key is absent, each key independently |
| SrsService.IndexOf | features/flashcard/lib/srs-service.ts:111-118 | the position of the record with this key, or -1 when no record has it |
| SrsService.Lookup | features/flashcard/lib/srs-service.ts:111-118 | `findUnique`: a stored record with the key, or none exactly when no record has it |
| SrsService.IndexOfUnique | features/flashcard/lib/srs-service.ts:111-118 | with unique keys, the lookup finds the one record with the key |
| SrsService.CurrentCard | features/flashcard/lib/srs-service.ts:121-127 | without a record the card is 0 repetitions, ease 2.5, interval 1, no last date, mastery new; otherwise the stored values |
| SrsService.UpsertedRecord | features/flashcard/lib/srs-service.ts:130-174 | the stored record carries the scheduler's result and the review time; a new record has one review and one correct or incorrect count; an update adds one to totalReviews and one to exactly one of the two counts, so correct + incorrect = total is kept |
| SrsService.RecordEffectFrame | features/flashcard/lib/srs-service.ts:133-174 | the upsert keeps the keys unique and the counters consistent, stores the new record under its key and leaves every other key's record unchanged |
| SrsService.UserLevels | features/flashcard/lib/srs-service.ts:189-193 | one level per record of the user: the list is as long as the user's record count |
| SrsService.UserLevelsCount | features/flashcard/lib/srs-service.ts:189-193 | each level occurs as often as the user has records at that level |
| SrsService.WithStatsCounts | features/flashcard/lib/srs-service.ts:187-226 | the profile gets the number of the user's records, of those mastered, and of those due at `now` |
| SrsService.LevelsPartition | features/flashcard/lib/srs-service.ts:189-193 | the four mastery counts add up to the number of records grouped |
| SrsService.GroupTotals | features/flashcard/lib/srs-service.ts:189-205 | summing the groups gives the user's record count and the mastered count |
| SrsService.TallyMasteryGroups | features/flashcard/lib/srs-service.ts:196-205 | the loop gives the sum of all group counts and the mastered group's count, with mastered ≤ total |
| SrsService.DueSelection | features/flashcard/lib/srs-service.ts:31-45 | only the user's due records, oldest due first, min(limit, due count) of them, and no due record left out is due earlier than one returned |
| SrsService.NewSelection | features/flashcard/lib/srs-service.ts:68-87 | only vocabularies of the level that the user has no record for, min(limit, number of such vocabularies) of them, oldest first, and none left out is older than one returned |
| SrsService.SrsStore.RecordReview | features/flashcard/lib/srs-service.ts:104-180 | the pair's record becomes the upserted one and nothing else changes, then the profile statistics are refreshed; a missing profile fails after the record is written |
| SrsService.SrsStore.UpdateProfileStats | features/flashcard/lib/srs-service.ts:187-226 | the profile gets the record count, the mastered count and the due count; a missing profile fails and changes nothing |
| SrsService.SrsStore.CreateSession | app/api/flashcard/review/route.ts:83-95 | the session is appended |
| SrsService.SrsStore.AwardXpAndStreak | app/api/flashcard/review/route.ts:101-111 | the profile's XP grows by the earned XP and its streak fields become the streak update of its previous ones |
| FlashcardReviewRoute.CountsPartition | app/api/flashcard/review/route.ts:60-69 | the four quality counts add up to the number of reviews and the correct count is at most that number |
| FlashcardReviewRoute.AccuracyTenths | app/api/flashcard/review/route.ts:79-80 | the rounded accuracy lies in 0..100.0 and is 100.0 when every review is correct |
| FlashcardReviewRoute.ReviewsEffectFrame | app/api/flashcard/review/route.ts:52-58 | recording a batch keeps the store valid and leaves every key the batch does not write unchanged |
| FlashcardReviewRoute.RepeatedWordChains | app/api/flashcard/review/route.ts:52-58 | a word reviewed twice in one batch is scheduled the second time from the record of the first |
| FlashcardReviewRoute.BatchResults | app/api/flashcard/review/route.ts:71-75 | one result per review |
| FlashcardReviewRoute.BatchResultsAt | app/api/flashcard/review/route.ts:71-75 | result i names review i's word and carries the mastery and next date of the record review i left |
| FlashcardReviewRoute.CountReview | app/api/flashcard/review/route.ts:60-69 | one loop turn's counting gives the tally of one more review |
| FlashcardReviewRoute.RecordBatch | app/api/flashcard/review/route.ts:52-76 | every review is recorded in order, the results and counters are those of the whole batch; a missing profile stops after the first review |
| FlashcardReviewRoute.FinishBatch | app/api/flashcard/review/route.ts:79-123 | the session row holds the counts and accuracy, XP is 5 per correct review, the profile gets the XP and the streak, and the reply carries the summary and results |
| FlashcardReviewRoute.ProcessReviews | app/api/flashcard/review/route.ts:44-123 | a validated batch ends in the summary with the store updated as a whole, or in a 500 when the profile is missing |
| FlashcardReviewRoute.PostReview | app/api/flashcard/review/route.ts:18-131 | 401 iff no user, 400 iff the body is invalid, and neither touches the store; 500 iff the profile is missing; otherwise the summary, results, records, session and profile as above |
| Streak.KstDay | shared/lib/update-streak.ts:7-11 | the Korean date is the UTC day holding the instant plus 9 hours |
| Streak.YesterdayIsPreviousDay | shared/lib/update-streak.ts:54-58 | the midnight-minus-24-hours construction names the Korean day before today |
| Streak.SameKstDay | shared/lib/update-streak.ts:7-11 | two instants share a Korean date exactly when both lie in the same 24 hours starting at 15:00 UTC |
| Streak.StreakRules | shared/lib/update-streak.ts:26-75 | last study date set to now; first study gives streak 1; same day keeps both streaks; yesterday adds one and raises the longest if needed; otherwise the streak resets to 1 |
| Streak.StreakInvariant | shared/lib/update-streak.ts:26-75 | the longest streak never decreases and current ≤ longest is kept |
| Streak.SameDayIsIdempotent | shared/lib/update-streak.ts:44-51 | a second study on the same Korean day changes only the instant |
| Streak.ConsecutiveDaysExtend | shared/lib/update-streak.ts:53-67 | study on consecutive Korean days adds one to the streak |
| Streak.GetStreakUpdateData | shared/lib/update-streak.ts:80-95 | a missing profile reads as (none, 0, 0) and gives streak 1, longest 1 |
| MigrateStreak.InsertDay | prisma/migrate-streak-data.ts:58 | inserting a day into a sorted set of days keeps it strictly increasing with exactly the old days and the new one |
| MigrateStreak.UniqueKstDays | prisma/migrate-streak-data.ts:52-58 | the Korean dates of the activity, each once, ascending; empty iff there is no activity |
| MigrateStreak.RunEndingIsMaximal | prisma/migrate-streak-data.ts:68-79 | `tempStreak` is the length of the longest run of consecutive days ending at the current day |
| MigrateStreak.LongestUpToIsLongest | prisma/migrate-streak-data.ts:65-79 | `longestStreak` is the length of some run and no run is longer |
| MigrateStreak.LongestStreak | prisma/migrate-streak-data.ts:65-79 | the loop returns the longest run length (at least 1) |
| MigrateStreak.CurrentStreak | prisma/migrate-streak-data.ts:82-96 | the scan returns n such that the n days ending today are all present and the day before them is not (0 when today is absent); it terminates |
| MigrateStreak.LatestIsMaximum | prisma/migrate-streak-data.ts:99 | the first instant after the newest-first sort is an activity instant no earlier than any other |
| MigrateStreak.LongestIsUnique | prisma/migrate-streak-data.ts:65-79 | the longest-run length is determined by the days |
| MigrateStreak.CurrentIsUnique | prisma/migrate-streak-data.ts:82-96 | the current streak is determined by the days and today |
| MigrateStreak.MigratedMeans | prisma/migrate-streak-data.ts:65-108 | the fields written for a user are the latest activity, a longest-run length that some run reaches and no run exceeds, and the current streak |
| MigrateStreak.MigrateUser | prisma/migrate-streak-data.ts:52-108 | no activity skips the user; otherwise the written fields are the current streak, the longest streak and the latest activity |
| MigrateStreak.MigrateStreakData | prisma/migrate-streak-data.ts:29-114 | every listed profile with activity is migrated, every other profile is unchanged, and `updated` counts the migrated ones |
| DiagnosisConstants.DifficultyWeight | features/diagnosis/constants/index.ts:1-8 | a weight exists exactly for the six CEFR levels and lies in 1..6 |
| DiagnosisConstants.LevelIndex | features/diagnosis/constants/index.ts:10 | `indexOf`: the level's position, or -1 exactly for a string not in the list |
| DiagnosisConstants.LevelsDistinct | features/diagnosis/constants/index.ts:10 | the six levels are listed once each |
| DiagnosisConstants.WeightIsRank | features/diagnosis/constants/index.ts:1-10 | every listed level weighs its position plus one, and the table weighs nothing else |
| DiagnosisConstants.WeightsIncrease | features/diagnosis/constants/index.ts:1-10 | a later level always weighs more |
| AccuracyThresholds.ThresholdsOrdered | features/diagnosis/constants/accuracy-thresholds.ts:1-36 | 40 < 60 < 75 < 80 |
| AccuracyThresholds.GetAccuracyStyle | features/diagnosis/constants/accuracy-thresholds.ts:15-53 | ≥ 80 green, [60, 80) yellow, [40, 60) orange, below 40 red |
| AccuracyThresholds.FocusLabelBelowWeak | features/diagnosis/constants/accuracy-thresholds.ts:36-52 | the "focused study" label is shown exactly below 60 |
| AccuracyThresholds.StylesDistinct | features/diagnosis/constants/accuracy-thresholds.ts:16-52 | the four styles differ |
| AccuracyThresholds.BandsMonotone | features/diagnosis/constants/accuracy-thresholds.ts:15-53 | higher accuracy never gets a worse band |
| DiagnosisScoring.AnswerWeight | features/diagnosis/lib/scoring.ts:11 | the weight lies in 1..6, is the level's rank for a listed difficulty, and 1 otherwise |
| DiagnosisScoring.ScoreBounds | features/diagnosis/lib/scoring.ts:7-16 | the maximum lies between n and 6n; the weighted score is at most the maximum, equal to it iff all answers are correct and 0 iff none is |
| DiagnosisScoring.ScoreTotals | features/diagnosis/lib/scoring.ts:7-16 | the loop sums the weights of the correct answers and of all answers |
| DiagnosisScoring.TotalScoreBounds | features/diagnosis/lib/scoring.ts:18 | the score lies in 0..100; it is 0 with no answers or none correct, and 100 when all are correct |
| DiagnosisScoring.MapScoreToCefr | features/diagnosis/lib/scoring.ts:32-39 | the result is one of the six levels |
| DiagnosisScoring.CefrByThresholds | features/diagnosis/lib/scoring.ts:32-39 | the level's rank is the number of thresholds 21, 41, 61, 81, 96 the score reaches |
| DiagnosisScoring.CefrMonotone | features/diagnosis/lib/scoring.ts:32-39 | a higher score never maps to a lower level |
| DiagnosisScoring.Tally | features/diagnosis/lib/scoring.ts:47-55 | a category's correct count is at most its total, and the total is 0 iff no answer has that category |
| DiagnosisScoring.Categories | features/diagnosis/lib/scoring.ts:48-57 | the categories met, each once |
| DiagnosisScoring.CategoryStep | features/diagnosis/lib/scoring.ts:47-55 | one more answer creates its category's entry if missing, then counts it |
| DiagnosisScoring.CategoryStatsOf | features/diagnosis/lib/scoring.ts:45-55 | an entry exists exactly for each answered category and holds that category's tally |
| DiagnosisScoring.CategoryStats | features/diagnosis/lib/scoring.ts:45-55 | the loop builds those entries, keys in insertion order |
| DiagnosisScoring.Areas | features/diagnosis/lib/scoring.ts:57-61 | one area per category, with accuracy correct / total × 100 |
| DiagnosisScoring.AnalyzeWeaknesses | features/diagnosis/lib/scoring.ts:44-64 | the method computes the weakness list |
| DiagnosisScoring.WeaknessesSpec | features/diagnosis/lib/scoring.ts:44-64 | the weaknesses are exactly the answered categories with accuracy below 60, with their accuracy, sorted ascending by accuracy |
| DiagnosisScoring.ReportedIsWeak | features/diagnosis/lib/scoring.ts:57-62 | every reported weakness has accuracy below 60 equal to its category's correct / total × 100 |
| DiagnosisScoring.WeakCategoryReported | features/diagnosis/lib/scoring.ts:57-63 | every category below 60 is reported |
| DiagnosisScoring.RecommendedLevelStep | features/diagnosis/lib/scoring.ts:66-72 | with three or more weaknesses the start is one level lower (not below A1), otherwise the level itself |
| DiagnosisScoring.CalculateDiagnosisScore | features/diagnosis/lib/scoring.ts:5-30 | the result's score lies in 0..100, the level is that score's band, the weaknesses are the analysed ones and the start point is a CEFR level |
| QuizXp.XpTable | features/quiz/lib/quiz-xp.ts:4-21 | a wrong answer earns 0; a right one earns 10, 9 or 6 by hint level, never more than the base 10 |
| QuizXp.XpNonIncreasing | features/quiz/lib/quiz-xp.ts:4-20 | more hint never earns more XP |
| Questions.CorrectOptionIsFirst | app/api/quiz/submit/route.ts:51 | `find` gives the first option flagged correct, and nothing exactly when none is |
| QuizSubmitRoute.GradedInOrder | app/api/quiz/submit/route.ts:45-83 | results and attempts correspond one to one with the answers whose question exists, in order; others leave no trace |
| QuizSubmitRoute.GradedXp | app/api/quiz/submit/route.ts:54-56 | the XP total is the sum of the per-question XP over the graded answers |
| QuizSubmitRoute.GradedCounts | app/api/quiz/submit/route.ts:54-65 | base XP is 10 per correct answer, the three hint counts add up to the correct answers, and the earned XP is at most the base XP |
| QuizSubmitRoute.GradeAnswers | app/api/quiz/submit/route.ts:26-83 | the loop's accumulators are the grading of all answers |
| QuizSubmitRoute.SummaryBounds | app/api/quiz/submit/route.ts:91-123 | total is the number of graded answers, correct ≤ total, accuracy in 0..100 and 0 with no results, XP and hint counts as above |
| QuizSubmitRoute.QuizStore.Submit | app/api/quiz/submit/route.ts:15-124 | 401 without a user and nothing changes; otherwise the attempts are appended, the profile is created or credited with the XP and the streak, and the reply is the results and summary |
| DiagnosisQuiz.Submit | features/diagnosis/hooks/use-diagnosis-quiz.ts:27-42 | nothing is submitted without questions; otherwise one answer per question |
| DiagnosisQuiz.SubmitAnswers | features/diagnosis/hooks/use-diagnosis-quiz.ts:31-38 | answer i copies question i's id, difficulty and category, and is correct iff the chosen text equals the first correct option's, including when neither exists |
| CardStatus.DiagnosisCardRules | views/main/lib/card-status.ts:7-19 | never locked; completed exactly when the test is done and may not be retaken |
| CardStatus.QuizCardRules | views/main/lib/card-status.ts:24-28 | available exactly when the test is done, otherwise locked |
| ArrayUtils.KeysInOrder | shared/lib/array-utils.ts:1-8 | the keys met, once each |
| ArrayUtils.CountBy | shared/lib/array-utils.ts:1-8 | the keys are exactly those of the items, each count is its key's number of items (≥ 1), and no items give no keys |
| ArrayUtils.OccursWhereKeyed | shared/lib/array-utils.ts:4-5 | a key has items exactly when some item maps to it |
| ArrayUtils.CountsSumToLength | shared/lib/array-utils.ts:1-8 | the counts add up to the number of items |
| QuizAnswers.HintRequestBounds | features/quiz/hooks/use-quiz-answers.ts:47-51 | a hint request raises the level by at most one, never above the question's maximum and never lowers it |
| QuizAnswers.TimeSpent | features/quiz/hooks/use-quiz-answers.ts:27 | whole seconds since the start, non-negative when the start is not in the future |
| QuizAnswers.QuizAnswerSheet.constructor | features/quiz/hooks/use-quiz-answers.ts:8-10 | all three maps start empty |
| QuizAnswers.QuizAnswerSheet.MarkStart | features/quiz/hooks/use-quiz-answers.ts:12-22 | the shown question gets a start time once, when it has none; other entries are kept |
| QuizAnswers.QuizAnswerSheet.HandleAnswer | features/quiz/hooks/use-quiz-answers.ts:24-40 | only this question's answer is set, with the time spent and the current hint level (default 0) |
| QuizAnswers.QuizAnswerSheet.HandleHintRequest | features/quiz/hooks/use-quiz-answers.ts:42-54 | only the current question's level changes, to min(level + 1, 2 with a context hint, else 1); with no current question nothing changes |
| QuizNavigation.IndexInRange | features/quiz/hooks/use-quiz-navigation.ts:9-38 | moves never make the index negative, a step back stops at 0, and the effect brings the index into range, or to 0 when the total is not positive |
| QuizNavigation.Navigator.constructor | features/quiz/hooks/use-quiz-navigation.ts:6-7 | index 0, no transition, no timer |
| QuizNavigation.Navigator.Resync | features/quiz/hooks/use-quiz-navigation.ts:9-18 | the index resets to 0 with no questions or past the last one, and is kept otherwise |
| QuizNavigation.Navigator.GoNext | features/quiz/hooks/use-quiz-navigation.ts:20-33 | before the last question a forward move is scheduled; on the last one the quiz is submitted when there are questions; the index itself is unchanged |
| QuizNavigation.Navigator.GoPrevious | features/quiz/hooks/use-quiz-navigation.ts:35-41 | a transition starts and a backward move is scheduled |
| QuizNavigation.Navigator.Fire | features/quiz/hooks/use-quiz-navigation.ts:23-40 | the oldest timer applies its move and ends the transition |
| Toast.WithoutId | shared/ui/toast.tsx:70 | no remaining entry has the id |
| Toast.WithoutIdSpec | shared/ui/toast.tsx:69-76 | exactly the entries with the id are removed, and the list is unchanged iff none had it |
| Toast.AddedSpec | shared/ui/toast.tsx:107-124 | the new toast is last and the only one with its id, at most three remain, and the dropped ones are the oldest of the kept list |
| Toast.AddedKeepsIdsUnique | shared/ui/toast.tsx:107-124 | unique ids stay unique |
| Toast.WithoutIdKeepsIdsUnique | shared/ui/toast.tsx:70 | removing one id keeps the other ids unique |
| Toast.ToastProvider.constructor | shared/ui/toast.tsx:66-67 | no toast and no timer |
| Toast.ToastProvider.Dismiss | shared/ui/toast.tsx:69-76 | the id's entries and its timer are removed |
| Toast.ToastProvider.Clear | shared/ui/toast.tsx:78-82 | no toast and no timer remain |
| Toast.ToastProvider.ScheduleDismiss | shared/ui/toast.tsx:84-99 | a positive duration (re)arms the id's timer; otherwise nothing changes |
| Toast.ToastProvider.Show | shared/ui/toast.tsx:101-130 | the id is the caller's or a fresh one, defaults info and 3000 ms, the list is `Added`, overflowed entries lose their timers, and the new timer is armed for a positive duration |
| Toast.ToastProvider.TimerFires | shared/ui/toast.tsx:95 | a firing timer dismisses its toast |
| RecentActivity.DayEntry | app/api/profile/recent-activity/route.ts:59-74 | a day's entry is a quiz entry of that date with correct ≤ total |
| RecentActivity.Days | app/api/profile/recent-activity/route.ts:59-69 | the dates with attempts, each once |
| RecentActivity.QuizByDate | app/api/profile/recent-activity/route.ts:59-74 | a key exists exactly for each date with attempts |
| RecentActivity.GroupStep | app/api/profile/recent-activity/route.ts:59-74 | one more attempt is the reduce callback applied once |
| RecentActivity.GroupByDate | app/api/profile/recent-activity/route.ts:59-74 | the loop builds the dates in insertion order and the per-date entries |
| RecentActivity.DayEntryCounts | app/api/profile/recent-activity/route.ts:70-72 | a day's total is its number of attempts, its correct count their correct ones, its time their summed time |
| RecentActivity.QuizActivities | app/api/profile/recent-activity/route.ts:92 | one entry per date, in insertion order |
| RecentActivity.QuizActivitiesSpec | app/api/profile/recent-activity/route.ts:59-74 | distinct dates, a date present iff it has attempts, and each total equals that day's attempts |
| RecentActivity.FlashcardActivities | app/api/profile/recent-activity/route.ts:77-89 | one entry per session, its UTC date, mode, count, duration and quality counts copied |
| RecentActivity.SortedSpec | app/api/profile/recent-activity/route.ts:92-93 | the merged list keeps its entries, newest date first, and quiz entries before flashcard entries of the same date |
| RecentActivity.FeedSpec | app/api/profile/recent-activity/route.ts:92-94 | the feed is the newest min(limit, entries) entries: the front of the sorted list, with no entry left out dated later than one returned; newest first, stable, and only merged entries |
| RecentActivity.Get | app/api/profile/recent-activity/route.ts:9-99 | 401 iff no user; otherwise totalActivities is the number of activities returned |
| VocabularyData.LevelOrderRanks | prisma/merge-vocabulary.ts:60 | the levels rank 1..6 without ties |
| VocabularyData.Lower | prisma/merge-vocabulary.ts:41-47 | ASCII lowercasing, character by character |
| VocabularyData.LowerIdempotent | prisma/merge-vocabulary.ts:41-47 | lowercasing twice is lowercasing once, and leaves no upper-case letter |
| VocabularyData.ComparatorPreorder | prisma/merge-vocabulary.ts:61-66 | for a total word order the level-then-word comparator is a total preorder |
| VocabularyData.SortVocabularySpec | prisma/merge-vocabulary.ts:61-66 | the sorted list is a permutation, levels never go down, and words are ordered within a level |
| VocabularyData.Distribution | prisma/merge-vocabulary.ts:77-92 | each count is its key's number of entries (≥ 1), the keys are those met, and each record's counts add up to the number of entries |
| MergeVocabulary.AppendAll | prisma/merge-vocabulary.ts:49-52 | the `forEach` appends the entries in order, and `existingWords` stays the set of lowercased words of the list |
| MergeVocabulary.MergeFiles | prisma/merge-vocabulary.ts:39-57 | the loop as written builds `Merged`, and its length is the main length plus totalNew |
| MergeVocabulary.AppendUnseen | prisma/merge-vocabulary.ts:47-52 | the corrected inner loop over one file: each entry is appended only when its lowercased word is unseen so far, the file's earlier entries included, so the list grows to `Deduped` of the entries met, `existingWords` stays its word set and the length is the main length plus totalNew |
| MergeVocabulary.MergeFilesUnique | prisma/merge-vocabulary.ts:39-57 | the loop with the per-entry check builds `MergedUnique`, and its length is the main length plus totalNew |
| MergeVocabulary.MergeVocabularies | prisma/merge-vocabulary.ts:39-92 | the script's output is the corrected merge sorted by level and word, of length main + totalNew; `byLevel` and `byCategory` have exactly the levels and categories present as keys, each counting its entries, and the counts add up to the length |
| MergeVocabulary.MergedSpec | prisma/merge-vocabulary.ts:40-52 | the main list is kept as a prefix, every appended word is new to main, and the seen words become main's plus every existing file's |
| MergeVocabulary.UniqueNewCovers | prisma/merge-vocabulary.ts:47-52 | after a file, the seen words include all of that file's words |
| MergeVocabulary.SameFileDuplicatesKept | prisma/merge-vocabulary.ts:47-52 | one file holding "Apple" and "apple" appends both |
| MergeVocabulary.LaterFileDuplicateDropped | prisma/merge-vocabulary.ts:47-52 | a word added by an earlier file is dropped from a later one |
| MergeVocabulary.DedupedSpec | prisma/merge-vocabulary.ts:41-52 | entry-by-entry dedup keeps the list as a prefix and adds only unseen words, pairwise distinct ignoring case |
| MergeVocabulary.MergedUniqueSpec | prisma/merge-vocabulary.ts:40-52 | the corrected merge keeps main, appends only words new to main and pairwise distinct ignoring case, and sees every file's words |
| MergeVocabulary.MergedUniqueAgrees | prisma/merge-vocabulary.ts:43-57 | when no file repeats a word within itself, the corrected merge equals the merge as written |
| GenerateVocabulary.CombinedSpec | prisma/generate-vocabulary.ts:287-293 | the existing list is a prefix; a new entry is appended iff its word is not among the existing ones; the length grows by their number |
| GenerateVocabulary.NewDuplicatesKept | prisma/generate-vocabulary.ts:288 | two new entries with the same word, unknown to the existing list, are both kept |
| GenerateVocabulary.Generate | prisma/generate-vocabulary.ts:284-327 | the output is the combined list sorted, a permutation of existing plus the unique new entries; `byLevel` and `byCategory` have exactly the levels and categories present as keys, each counting its entries, and the counts add up to its length |
| Sorting.SortBy | app/api/profile/recent-activity/route.ts:93 | the sort keeps the length and the multiset of elements |
| Sorting.SortBySorted | app/api/profile/recent-activity/route.ts:93 | for a total preorder the result is sorted |
| Sorting.SortByStable | app/api/profile/recent-activity/route.ts:93 | elements that compare equal keep their relative order |
| Common.RoundDiv | app/api/quiz/submit/route.ts:119 | `Math.round(n / d)`: the result is within half of n / d, ties upwards |
| Common.PercentageBelow | features/diagnosis/lib/scoring.ts:62 | comparing the percentage with a whole threshold is comparing 100 × part with threshold × whole |
| Common.RoundedPercentBounds | app/api/quiz/submit/route.ts:92-119 | a rounded percentage of a part lies in 0..100, is 0 for none and 100 for all |

## Left out

- I/O and infrastructure are not modelled: Prisma queries, `NextResponse`, session cookies, `req.json()`, the console output and the file reads and writes of the two scripts. The store is a set of class fields, the signed-in user an `Option<string>`, the file contents parameters (a missing expansion file is `None`).
- The record and profile updates run in sequence in one call; concurrent requests and partial failure inside Prisma are not modelled.
- A body the route cannot parse as JSON, or another thrown error, ends in a 500 in the source; the model's bodies are already JSON values.
- The clock is the parameter `now`, the same instant for every `new Date()` of one request.
- Dates are day numbers rather than ISO strings. Calendar strings are in one-to-one correspondence with day numbers.
- `addDays` uses the local calendar (`setDate`), which shifts by an hour across a daylight-saving change; the model adds 24-hour days.
- Floating point is not modelled. Ease factors are exact hundredths; `Math.round(interval * ef)` rounds the exact product, so a float product that lands just below a half can round differently. Percentages are exact reals; 10 × 0.9 and 10 × 0.6 are taken as 9 and 6.
- FlashcardReviewRoute.AccuracyTenths: the one-decimal rounding `Math.round(accuracy * 10) / 10` is modelled on exact tenths of a percent, not on the float the source divides by 10.
- `Array.prototype.sort` sorts in place; the model sorts values (`SortBy`) because the sorted array is never aliased.
- The database orderings (`orderBy`, `take`) of `getDueVocabularies`, `getNewVocabularies` and the recent-activity queries are modelled as a stable sort and a prefix. Ties in the database order are unspecified; the model breaks them by store order.
- The recent-activity route receives the rows its two queries return (`take: limit * 10` attempts and `take: limit` sessions, newest first) as inputs; the query limits themselves are not modelled.
- RecentActivity.Get: `parseInt` of a non-numeric `limit` gives NaN in the source; the model takes `limit` as an integer.
- RecentActivity.FeedSpec: states the feed's length and order for a non-negative limit only; a negative limit is handled by `SliceTo` as JavaScript's `slice` does, without a lemma.
- `groupBy` returns its groups in an unspecified order; the model lists them in a fixed order of the mastery levels, which the sums do not depend on.
- JavaScript objects used as records list their keys in insertion order, except integer-like keys such as "1" or "42", which `Object.entries` and `Object.values` list first in ascending numeric order. The model keeps insertion order as a separate key list where the source reads it. It therefore assumes that no category or date key is integer-like. Such a key would change the order of the areas before `analyzeWeaknesses`' stable sort (features/diagnosis/lib/scoring.ts:57-63), and so the order of tied weaknesses. Keys such as `__proto__` are not modelled.
- `hintLevel` outside 0..2 cannot occur in the model (a subset type); the quiz route does not check it.
- `createToastId` (random) is the parameter `freshId`; toast timers are kept as their delay, and the browser's timer handles and the unmount clean-up are not modelled.
- The navigation hook's 300 ms timers are a queue of pending moves that fire in order; real time between them is not modelled.
- The database defaults of the profile columns (0 for XP and counters) are written out where a profile is created.
- `localeCompare` is an abstract total preorder; `toLowerCase` is ASCII-only.
- The CSS class strings and emoji of the accuracy bands are not modelled beyond telling the four styles apart; the MODERATE threshold (75) is declared by the source but used by no band.
- The diagnosis start, status and submit routes, the daily quiz route, the profile statistics route, the question generator and all presentation components are not part of this model.

## Findings

| source | as written | input that shows it | evidently intended | confidence | as-written member | corrected member |
|---|---|---|---|---|---|---|
| prisma/merge-vocabulary.ts:47-52 | each expansion file is filtered against the words seen before that file, and only then added to the seen set, so entries of one file that differ only in case are all appended | main list empty, one expansion file holding "Apple" and "apple": both are appended | appended entries never repeat a word, ignoring case, as the per-entry update of `existingWords` at line 50 suggests | medium; not executed | MergeVocabulary.SameFileDuplicatesKept | MergeVocabulary.MergedUniqueSpec |
