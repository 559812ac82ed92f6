/** POST /api/flashcard/review (app/api/flashcard/review/route.ts): validate a
    batch of reviews, record each one in order, store a session summary and
    award XP and the daily streak. The session cookie becomes an optional user
    id and the clock the parameter `now`. */
module FlashcardReviewRoute {
  import opened Common
  import opened SrsAlgorithm
  import opened SrsValidation
  import opened SrsService
  import opened Streak

  /** One element of the response's `results`. */
  datatype ReviewResult = ReviewResult(vocabularyId: string, masteryLevel: MasteryLevel, nextReviewDate: int)

  datatype ReviewResponse =
    | Unauthorized                     // 401
    | BadRequest                       // 400
    | ServerError                      // 500
    | Success(total: nat, correct: nat, accuracyTenths: int, xpEarned: nat, results: seq<ReviewResult>)

  const XpPerCorrect := 5

  function CountCorrect(reviews: seq<ReviewEntry>): nat
  {
    if reviews == [] then 0
    else CountCorrect(reviews[..|reviews| - 1]) + (if reviews[|reviews| - 1].isCorrect then 1 else 0)
  }

  function CountQuality(reviews: seq<ReviewEntry>, q: ReviewQuality): nat
  {
    if reviews == [] then 0
    else CountQuality(reviews[..|reviews| - 1], q) + (if reviews[|reviews| - 1].quality == q then 1 else 0)
  }

  /** Every review is counted under exactly one quality, and at most every
      review is correct. */
  lemma {:induction false} CountsPartition(reviews: seq<ReviewEntry>)
    ensures CountQuality(reviews, Easy) + CountQuality(reviews, Normal)
          + CountQuality(reviews, Hard) + CountQuality(reviews, Forgot) == |reviews|
    ensures CountCorrect(reviews) <= |reviews|
  {
    if reviews != [] {
      CountsPartition(reviews[..|reviews| - 1]);
    }
  }

  /** The summary's accuracy rounded to one decimal, in tenths of a percent. */
  function AccuracyTenths(correct: nat, total: nat): (t: int)
    requires 0 < total
    ensures correct <= total ==> 0 <= t <= 1000
    ensures correct == total ==> t == 1000
  {
    var t := RoundDiv(correct * 1000, total);
    TenthsBounds(correct, total, t);
    t
  }

  lemma TenthsBounds(correct: nat, total: nat, t: int)
    requires 0 < total
    requires 2 * total * t - total <= 2 * (correct * 1000) < 2 * total * t + total
    ensures correct <= total ==> 0 <= t <= 1000
    ensures correct == total ==> t == 1000
  {
    PosFactor(total, 2 * t + 1);
    if correct <= total {
      assert 2 * total * t - total == total * (2 * t - 1);
      MulCancelLe(total, 2 * t - 1, 2000);
    }
    if correct == total {
      MulCancelLt(total, 2000, 2 * t + 1);
    }
  }

  /** The store's records after recording `reviews` one after the other. */
  function ReviewsEffect(records: seq<UserVocabulary>, userId: string, reviews: seq<ReviewEntry>, now: int)
    : seq<UserVocabulary>
  {
    if reviews == [] then records
    else
      var last := reviews[|reviews| - 1];
      RecordEffect(ReviewsEffect(records, userId, reviews[..|reviews| - 1], now),
                   userId, last.vocabularyId, last.quality, last.isCorrect, now)
  }

  /** The record review i of the batch leaves, read against the records the
      earlier reviews of the batch produced. */
  function Outcome(records: seq<UserVocabulary>, userId: string, reviews: seq<ReviewEntry>, i: nat, now: int)
    : UserVocabulary
    requires i < |reviews|
  {
    var before := ReviewsEffect(records, userId, reviews[..i], now);
    var e := reviews[i];
    Upserted(Lookup(before, userId, e.vocabularyId), userId, e.vocabularyId, e.quality, e.isCorrect, now)
  }

  /** Key (u, v) is none of the keys a batch of user `userId` writes. */
  predicate Untouched(reviews: seq<ReviewEntry>, userId: string, u: string, v: string)
  {
    u != userId || forall e :: e in reviews ==> e.vocabularyId != v
  }

  /** Recording a batch keeps the store valid and leaves the records of the
      words the batch does not mention, and of other users, untouched. */
  lemma {:induction false} ReviewsEffectFrame(records: seq<UserVocabulary>, userId: string,
                                               reviews: seq<ReviewEntry>, now: int)
    requires ValidRecords(records)
    ensures ValidRecords(ReviewsEffect(records, userId, reviews, now))
    ensures forall u, v :: Untouched(reviews, userId, u, v) ==>
      Lookup(ReviewsEffect(records, userId, reviews, now), u, v) == Lookup(records, u, v)
  {
    if reviews != [] {
      var init := reviews[..|reviews| - 1];
      var last := reviews[|reviews| - 1];
      ReviewsEffectFrame(records, userId, init, now);
      RecordEffectFrame(ReviewsEffect(records, userId, init, now),
                        userId, last.vocabularyId, last.quality, last.isCorrect, now);
      forall u, v | Untouched(reviews, userId, u, v)
        ensures Untouched(init, userId, u, v)
      {
        forall e | e in init
          ensures u != userId || e.vocabularyId != v
        {
          assert e in reviews;
        }
      }
    }
  }

  /** A batch that reviews the same word twice schedules the second review
      from the record the first one wrote. */
  lemma RepeatedWordChains(records: seq<UserVocabulary>, userId: string, a: ReviewEntry, b: ReviewEntry, now: int)
    requires ValidRecords(records) && a.vocabularyId == b.vocabularyId
    ensures Outcome(records, userId, [a, b], 1, now)
      == Upserted(Some(Outcome(records, userId, [a, b], 0, now)), userId, b.vocabularyId, b.quality, b.isCorrect, now)
  {
    var reviews := [a, b];
    assert reviews[..1] == [a] && reviews[..0] == [] && [a][..0] == [];
    RecordEffectFrame(records, userId, a.vocabularyId, a.quality, a.isCorrect, now);
  }

  /** The five counters of the handler's loop. */
  datatype Tally = Tally(correct: nat, easy: nat, normal: nat, hard: nat, forgot: nat)

  function TallyOf(reviews: seq<ReviewEntry>): Tally
  {
    Tally(CountCorrect(reviews), CountQuality(reviews, Easy), CountQuality(reviews, Normal),
          CountQuality(reviews, Hard), CountQuality(reviews, Forgot))
  }

  /** The response's `results`: one entry per review, from the record that
      review's `recordReview` returned. */
  function BatchResults(records: seq<UserVocabulary>, userId: string, reviews: seq<ReviewEntry>, now: int)
    : (results: seq<ReviewResult>)
    ensures |results| == |reviews|
  {
    if reviews == [] then []
    else
      var init := reviews[..|reviews| - 1];
      var e := reviews[|reviews| - 1];
      var uv := Upserted(Lookup(ReviewsEffect(records, userId, init, now), userId, e.vocabularyId),
                         userId, e.vocabularyId, e.quality, e.isCorrect, now);
      BatchResults(records, userId, init, now) + [ReviewResult(e.vocabularyId, uv.masteryLevel, uv.nextReviewDate)]
  }

  /** Entry i of the results names review i's word and carries the level and
      the next review date that review stored. */
  lemma {:induction false} BatchResultsAt(records: seq<UserVocabulary>, userId: string,
                                           reviews: seq<ReviewEntry>, now: int, i: nat)
    requires i < |reviews|
    ensures var uv := Outcome(records, userId, reviews, i, now);
      BatchResults(records, userId, reviews, now)[i]
        == ReviewResult(reviews[i].vocabularyId, uv.masteryLevel, uv.nextReviewDate)
  {
    var init := reviews[..|reviews| - 1];
    if i < |reviews| - 1 {
      BatchResultsAt(records, userId, init, now, i);
      assert init[..i] == reviews[..i];
    }
  }

  lemma ResultsStep(records: seq<UserVocabulary>, userId: string, reviews: seq<ReviewEntry>, k: nat, now: int,
                    results: seq<ReviewResult>, uv: UserVocabulary)
    requires k < |reviews|
    requires results == BatchResults(records, userId, reviews[..k], now)
    requires uv == Outcome(records, userId, reviews, k, now)
    ensures results + [ReviewResult(reviews[k].vocabularyId, uv.masteryLevel, uv.nextReviewDate)]
      == BatchResults(records, userId, reviews[..k + 1], now)
  {
    assert reviews[..k + 1][..k] == reviews[..k];
  }

  /** The counting part of the loop body: a correct review raises the correct
      count and each review raises the count of its quality. */
  method CountReview(tally: Tally, reviews: seq<ReviewEntry>, k: nat) returns (next: Tally)
    requires k < |reviews| && tally == TallyOf(reviews[..k])
    ensures next == TallyOf(reviews[..k + 1])
  {
    var review := reviews[k];
    var correct, easy, normal, hard, forgot := tally.correct, tally.easy, tally.normal, tally.hard, tally.forgot;
    if review.isCorrect {
      correct := correct + 1;
    }
    match review.quality {
      case Easy => easy := easy + 1;
      case Normal => normal := normal + 1;
      case Hard => hard := hard + 1;
      case Forgot => forgot := forgot + 1;
    }
    assert reviews[..k + 1][..k] == reviews[..k];
    next := Tally(correct, easy, normal, hard, forgot);
  }

  lemma EffectStep(records: seq<UserVocabulary>, userId: string, reviews: seq<ReviewEntry>, k: nat, now: int)
    requires k < |reviews|
    ensures var e := reviews[k];
      ReviewsEffect(records, userId, reviews[..k + 1], now)
        == RecordEffect(ReviewsEffect(records, userId, reviews[..k], now),
                        userId, e.vocabularyId, e.quality, e.isCorrect, now)
  {
    assert reviews[..k + 1][..k] == reviews[..k];
  }

  /** What the loop has done after its first k reviews, all recorded. */
  ghost predicate BatchState(store: SrsStore, records0: seq<UserVocabulary>, profiles0: map<string, Profile>,
                             userId: string, reviews: seq<ReviewEntry>, k: nat, now: int,
                             results: seq<ReviewResult>, tally: Tally)
    reads store
    requires k <= |reviews|
  {
    && store.Valid()
    && store.records == ReviewsEffect(records0, userId, reviews[..k], now)
    && (k == 0 ==> store.profiles == profiles0)
    && (k > 0 ==> userId in profiles0)
    && (k > 0 ==> store.profiles == profiles0[userId := WithStats(profiles0[userId], store.records, userId, now)])
    && tally == TallyOf(reviews[..k])
    && results == BatchResults(records0, userId, reviews[..k], now)
  }

  /** The profile after review k carries the statistics of the records after
      review k, whatever the statistics written before. */
  lemma ProfilesStep(profiles0: map<string, Profile>, prev: map<string, Profile>, userId: string,
                     records: seq<UserVocabulary>, now: int, first: bool)
    requires first ==> prev == profiles0
    requires !first ==> userId in profiles0 && exists r :: prev == profiles0[userId := WithStats(profiles0[userId], r, userId, now)]
    requires userId in prev
    ensures userId in profiles0
    ensures prev[userId := WithStats(prev[userId], records, userId, now)]
      == profiles0[userId := WithStats(profiles0[userId], records, userId, now)]
  {
    if !first {
      var r :| prev == profiles0[userId := WithStats(profiles0[userId], r, userId, now)];
      assert WithStats(prev[userId], records, userId, now) == WithStats(profiles0[userId], records, userId, now);
    }
  }

  /** One turn of the loop: record review k, count it and collect its result. */
  method RecordStep(store: SrsStore, ghost records0: seq<UserVocabulary>, ghost profiles0: map<string, Profile>,
                    userId: string, reviews: seq<ReviewEntry>, k: nat, now: int,
                    results: seq<ReviewResult>, tally: Tally)
    returns (ok: bool, results': seq<ReviewResult>, tally': Tally)
    requires k < |reviews|
    requires BatchState(store, records0, profiles0, userId, reviews, k, now, results, tally)
    modifies store
    ensures store.sessions == old(store.sessions)
    ensures ok == (userId in old(store.profiles))
    ensures ok ==> BatchState(store, records0, profiles0, userId, reviews, k + 1, now, results', tally')
    ensures !ok ==> store.Valid() && store.records == ReviewsEffect(records0, userId, reviews[..k + 1], now)
  {
    var review := reviews[k];
    EffectStep(records0, userId, reviews, k, now);
    var userVocab, recorded := store.RecordReview(userId, review.vocabularyId, review.quality, review.isCorrect, now);
    if !recorded {
      return false, results, tally;
    }
    ProfilesStep(profiles0, old(store.profiles), userId, store.records, now, k == 0);
    tally' := CountReview(tally, reviews, k);
    ResultsStep(records0, userId, reviews, k, now, results, userVocab);
    results' := results + [ReviewResult(review.vocabularyId, userVocab.masteryLevel, userVocab.nextReviewDate)];
    ok := true;
  }

  /** The loop of the handler: record every review in order, counting and
      collecting results. Each review is recorded before the next one is read;
      a missing profile makes the first `recordReview` fail after its record is
      written. */
  method RecordBatch(store: SrsStore, userId: string, reviews: seq<ReviewEntry>, now: int)
    returns (ok: bool, results: seq<ReviewResult>, tally: Tally)
    requires store.Valid() && |reviews| >= 1
    modifies store
    ensures store.Valid()
    ensures store.sessions == old(store.sessions)
    ensures ok == (userId in old(store.profiles))
    ensures !ok ==> store.records == ReviewsEffect(old(store.records), userId, reviews[..1], now)
    ensures ok ==>
      && store.records == ReviewsEffect(old(store.records), userId, reviews, now)
      && store.profiles == old(store.profiles)[userId :=
           WithStats(old(store.profiles)[userId], store.records, userId, now)]
      && results == BatchResults(old(store.records), userId, reviews, now)
      && tally == TallyOf(reviews)
  {
    ghost var records0, profiles0 := store.records, store.profiles;
    results := [];
    tally := Tally(0, 0, 0, 0, 0);
    assert reviews[..0] == [];
    for k := 0 to |reviews|
      invariant BatchState(store, records0, profiles0, userId, reviews, k, now, results, tally)
      invariant store.sessions == old(store.sessions)
    {
      var recorded;
      recorded, results, tally := RecordStep(store, records0, profiles0, userId, reviews, k, now, results, tally);
      if !recorded {
        return false, results, tally;
      }
    }
    assert reviews[..|reviews|] == reviews;
    ok := true;
  }

  /** The session row the handler stores for a recorded batch. */
  function SessionOf(userId: string, req: ReviewRequest, now: int): FlashcardSession
    requires |req.reviews| > 0
  {
    var tally := TallyOf(req.reviews);
    FlashcardSession(userId, req.mode, |req.reviews|, Percentage(tally.correct, |req.reviews|), req.duration,
                     tally.easy, tally.normal, tally.hard, tally.forgot, now)
  }

  /** The profile after a recorded batch: the statistics of the last
      `recordReview`, the XP added and the streak updated. */
  function RewardedProfile(p: Profile, records: seq<UserVocabulary>, userId: string, xpEarned: int, now: int): Profile
  {
    WithStats(p, records, userId, now).(
      totalXP := p.totalXP + xpEarned,
      streak := Streaked(GetStreakUpdateData(Some(p.streak), now)))
  }

  /** Steps 4 to 8 of the handler, once every review is recorded. */
  method FinishBatch(store: SrsStore, userId: string, req: ReviewRequest, results: seq<ReviewResult>,
                     tally: Tally, now: int) returns (resp: ReviewResponse)
    requires |req.reviews| > 0 && tally == TallyOf(req.reviews)
    requires userId in store.profiles
    modifies store`sessions, store`profiles
    ensures resp == Success(|req.reviews|, tally.correct, AccuracyTenths(tally.correct, |req.reviews|),
                            XpPerCorrect * tally.correct, results)
    ensures store.sessions == old(store.sessions) + [SessionOf(userId, req, now)]
    ensures store.profiles == old(store.profiles)[userId := old(store.profiles)[userId].(
              totalXP := old(store.profiles)[userId].totalXP + XpPerCorrect * tally.correct,
              streak := Streaked(GetStreakUpdateData(Some(old(store.profiles)[userId].streak), now)))]
  {
    var totalReviews := |req.reviews|;
    var accuracy := Percentage(tally.correct, totalReviews);
    store.CreateSession(FlashcardSession(userId, req.mode, totalReviews, accuracy, req.duration,
                                         tally.easy, tally.normal, tally.hard, tally.forgot, now));
    var xpEarned := tally.correct * XpPerCorrect;
    var awarded := store.AwardXpAndStreak(userId, xpEarned, now);
    resp := Success(totalReviews, tally.correct, AccuracyTenths(tally.correct, totalReviews), xpEarned, results);
  }

  /** Steps 3 to 8 of the handler for a validated request: record the batch,
      then store the session and the rewards; a missing profile ends in a
      server error after the first review is recorded. */
  method ProcessReviews(store: SrsStore, userId: string, req: ReviewRequest, now: int) returns (resp: ReviewResponse)
    requires store.Valid() && |req.reviews| >= 1
    modifies store
    ensures store.Valid()
    ensures resp.ServerError? || resp.Success?
    ensures resp.ServerError? <==> userId !in old(store.profiles)
    ensures resp.ServerError? ==> store.records == ReviewsEffect(old(store.records), userId, req.reviews[..1], now)
    ensures resp.Success? ==>
      var correct := TallyOf(req.reviews).correct;
      && resp == Success(|req.reviews|, correct, AccuracyTenths(correct, |req.reviews|), XpPerCorrect * correct,
                         BatchResults(old(store.records), userId, req.reviews, now))
      && store.records == ReviewsEffect(old(store.records), userId, req.reviews, now)
      && store.sessions == old(store.sessions) + [SessionOf(userId, req, now)]
      && store.profiles == old(store.profiles)[userId :=
           RewardedProfile(old(store.profiles)[userId], store.records, userId, resp.xpEarned, now)]
  {
    var ok, results, tally := RecordBatch(store, userId, req.reviews, now);
    if !ok {
      return ServerError;
    }
    resp := FinishBatch(store, userId, req, results, tally, now);
  }

  /** The handler: 401 without a user, 400 for a body the schema refuses,
      500 when recording fails, otherwise the summary and the results. */
  method PostReview(store: SrsStore, sessionUserId: Option<string>, body: Json, now: int)
    returns (resp: ReviewResponse)
    requires store.Valid()
    modifies store
    ensures store.Valid()
    ensures resp.Unauthorized? <==> sessionUserId.None? || sessionUserId.value == ""
    ensures resp.BadRequest? <==> !resp.Unauthorized? && ParseReviewRequest(body).None?
    ensures resp.Unauthorized? || resp.BadRequest? ==>
      store.records == old(store.records) && store.profiles == old(store.profiles)
      && store.sessions == old(store.sessions)
    ensures resp.ServerError? <==>
      !resp.Unauthorized? && !resp.BadRequest? && sessionUserId.value !in old(store.profiles)
    ensures resp.ServerError? ==>
      store.records == ReviewsEffect(old(store.records), sessionUserId.value,
                                     ParseReviewRequest(body).value.reviews[..1], now)
    ensures resp.Success? ==>
      var userId := sessionUserId.value;
      var req := ParseReviewRequest(body).value;
      var correct := TallyOf(req.reviews).correct;
      && resp == Success(|req.reviews|, correct, AccuracyTenths(correct, |req.reviews|), XpPerCorrect * correct,
                         BatchResults(old(store.records), userId, req.reviews, now))
      && store.records == ReviewsEffect(old(store.records), userId, req.reviews, now)
      && store.sessions == old(store.sessions) + [SessionOf(userId, req, now)]
      && store.profiles == old(store.profiles)[userId :=
           RewardedProfile(old(store.profiles)[userId], store.records, userId, resp.xpEarned, now)]
  {
    if sessionUserId.None? || sessionUserId.value == "" {
      return Unauthorized;
    }
    var validation := ParseReviewRequest(body);
    if validation.None? {
      return BadRequest;
    }
    resp := ProcessReviews(store, sessionUserId.value, validation.value, now);
  }
}
