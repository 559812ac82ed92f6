/** The service layer of features/flashcard/lib/srs-service.ts over an
    in-memory store: one record per (user, vocabulary) pair, the user profiles
    and the flashcard sessions. Database calls become reads and writes of the
    store's fields; the clock is the parameter `now`. */
module SrsService {
  import opened Common
  import opened SrsAlgorithm
  import opened Sorting
  import opened Streak
  import SrsValidation

  datatype UserVocabulary = UserVocabulary(
    userId: string,
    vocabularyId: string,
    repetitions: int,
    easeFactor: int,
    interval: int,
    lastReviewDate: int,
    nextReviewDate: int,
    masteryLevel: MasteryLevel,
    totalReviews: int,
    correctCount: int,
    incorrectCount: int)

  datatype Vocabulary = Vocabulary(id: string, level: string, createdAt: int)

  datatype Profile = Profile(
    totalWordLearned: int,
    masteredWords: int,
    reviewNeeded: int,
    totalXP: int,
    streak: StreakState)

  datatype FlashcardSession = FlashcardSession(
    userId: string,
    mode: SrsValidation.StudyMode,
    vocabularyCount: int,
    accuracy: real,
    duration: int,
    easyCount: int,
    normalCount: int,
    hardCount: int,
    forgotCount: int,
    createdAt: int)

  /** One row of `groupBy(["masteryLevel"])`. */
  datatype MasteryGroup = MasteryGroup(masteryLevel: MasteryLevel, count: nat)

  predicate HasKey(uv: UserVocabulary, userId: string, vocabularyId: string)
  {
    uv.userId == userId && uv.vocabularyId == vocabularyId
  }

  /** The composite key (userId, vocabularyId) is unique in the store. */
  ghost predicate UniqueKeys(records: seq<UserVocabulary>)
  {
    forall i, j :: 0 <= i < j < |records| ==> !HasKey(records[j], records[i].userId, records[i].vocabularyId)
  }

  /** Every record has counted each review once, as correct or as incorrect. */
  ghost predicate CountersAgree(uv: UserVocabulary)
  {
    uv.correctCount >= 0 && uv.incorrectCount >= 0 && uv.correctCount + uv.incorrectCount == uv.totalReviews
  }

  ghost predicate ValidRecords(records: seq<UserVocabulary>)
  {
    UniqueKeys(records) && forall i :: 0 <= i < |records| ==> CountersAgree(records[i])
  }

  function IndexOf(records: seq<UserVocabulary>, userId: string, vocabularyId: string): (i: int)
    ensures -1 <= i < |records|
    ensures i >= 0 ==> HasKey(records[i], userId, vocabularyId)
    ensures i < 0 ==> forall k :: 0 <= k < |records| ==> !HasKey(records[k], userId, vocabularyId)
  {
    if records == [] then -1
    else if HasKey(records[0], userId, vocabularyId) then 0
    else
      var k := IndexOf(records[1..], userId, vocabularyId);
      if k < 0 then -1 else k + 1
  }

  /** `findUnique` on the composite key. */
  function Lookup(records: seq<UserVocabulary>, userId: string, vocabularyId: string): (r: Option<UserVocabulary>)
    ensures r.Some? ==> r.value in records && HasKey(r.value, userId, vocabularyId)
    ensures r.None? ==> forall uv :: uv in records ==> !HasKey(uv, userId, vocabularyId)
  {
    var i := IndexOf(records, userId, vocabularyId);
    if i < 0 then None else Some(records[i])
  }

  lemma IndexOfUnique(records: seq<UserVocabulary>, k: int, userId: string, vocabularyId: string)
    requires UniqueKeys(records) && 0 <= k < |records| && HasKey(records[k], userId, vocabularyId)
    ensures IndexOf(records, userId, vocabularyId) == k
  {
  }

  /** The card handed to the scheduler: the stored values, or the defaults of
      a first review (repetitions 0, ease 2.5, interval 1, no last review, new). */
  function CurrentCard(stored: Option<UserVocabulary>): (card: SrsCard)
    ensures stored.None? ==> card == SrsCard(0, 250, 1, None, New)
    ensures stored.Some? ==>
      && card.repetitions == stored.value.repetitions
      && card.easeFactor == stored.value.easeFactor
      && card.interval == stored.value.interval
      && card.lastReviewDate == Some(stored.value.lastReviewDate)
  {
    match stored
    case None => SrsCard(0, 250, 1, None, New)
    case Some(uv) => SrsCard(uv.repetitions, uv.easeFactor, uv.interval, Some(uv.lastReviewDate), uv.masteryLevel)
  }

  /** The record the upsert of `recordReview` leaves behind. */
  function Upserted(stored: Option<UserVocabulary>, userId: string, vocabularyId: string,
                    quality: ReviewQuality, isCorrect: bool, now: int): UserVocabulary
  {
    var r := NextReview(CurrentCard(stored), quality, isCorrect, now);
    var hit := if isCorrect then 1 else 0;
    var miss := if isCorrect then 0 else 1;
    match stored
    case None =>
      UserVocabulary(userId, vocabularyId, r.repetitions, r.easeFactor, r.interval, now,
                     r.nextReviewDate, r.masteryLevel, 1, hit, miss)
    case Some(uv) =>
      uv.(repetitions := r.repetitions, easeFactor := r.easeFactor, interval := r.interval,
          lastReviewDate := now, nextReviewDate := r.nextReviewDate, masteryLevel := r.masteryLevel,
          totalReviews := uv.totalReviews + 1, correctCount := uv.correctCount + hit,
          incorrectCount := uv.incorrectCount + miss)
  }

  /** What a recorded review stores: the scheduler's result for the current
      card; on creation one review counted as correct or incorrect; on update
      each counter grows by at most one, so the two counters keep adding up to
      the total. */
  lemma UpsertedRecord(stored: Option<UserVocabulary>, userId: string, vocabularyId: string,
                       quality: ReviewQuality, isCorrect: bool, now: int)
    requires stored.Some? ==> HasKey(stored.value, userId, vocabularyId)
    ensures var uv := Upserted(stored, userId, vocabularyId, quality, isCorrect, now);
      var r := NextReview(CurrentCard(stored), quality, isCorrect, now);
      && HasKey(uv, userId, vocabularyId)
      && uv.repetitions == r.repetitions && uv.easeFactor == r.easeFactor && uv.interval == r.interval
      && uv.nextReviewDate == r.nextReviewDate && uv.masteryLevel == r.masteryLevel
      && uv.lastReviewDate == now
      && (stored.None? ==>
            uv.totalReviews == 1 && uv.correctCount == (if isCorrect then 1 else 0)
            && uv.incorrectCount == (if isCorrect then 0 else 1))
      && (stored.Some? ==>
            && uv.totalReviews == stored.value.totalReviews + 1
            && uv.correctCount == stored.value.correctCount + (if isCorrect then 1 else 0)
            && uv.incorrectCount == stored.value.incorrectCount + (if isCorrect then 0 else 1))
      && ((stored.Some? && CountersAgree(stored.value)) || stored.None? ==> CountersAgree(uv))
  {
  }

  /** The store's records after `recordReview`: the pair's record replaced in
      place, or appended when the pair had none. */
  function RecordEffect(records: seq<UserVocabulary>, userId: string, vocabularyId: string,
                        quality: ReviewQuality, isCorrect: bool, now: int): seq<UserVocabulary>
  {
    var i := IndexOf(records, userId, vocabularyId);
    var uv := Upserted(Lookup(records, userId, vocabularyId), userId, vocabularyId, quality, isCorrect, now);
    if i < 0 then records + [uv] else records[i := uv]
  }

  /** Recording a review keeps the keys unique and the counters consistent,
      stores the new record under its key, and leaves every other key's record
      as it was. */
  lemma RecordEffectFrame(records: seq<UserVocabulary>, userId: string, vocabularyId: string,
                          quality: ReviewQuality, isCorrect: bool, now: int)
    requires ValidRecords(records)
    ensures var after := RecordEffect(records, userId, vocabularyId, quality, isCorrect, now);
      && ValidRecords(after)
      && Lookup(after, userId, vocabularyId)
           == Some(Upserted(Lookup(records, userId, vocabularyId), userId, vocabularyId, quality, isCorrect, now))
      && forall u, v :: !(u == userId && v == vocabularyId) ==> Lookup(after, u, v) == Lookup(records, u, v)
  {
    var after := RecordEffect(records, userId, vocabularyId, quality, isCorrect, now);
    var i := IndexOf(records, userId, vocabularyId);
    var stored := Lookup(records, userId, vocabularyId);
    UpsertedRecord(stored, userId, vocabularyId, quality, isCorrect, now);
    var uv := Upserted(stored, userId, vocabularyId, quality, isCorrect, now);
    assert forall k :: 0 <= k < |after| ==> after[k] == (if k == i || k == |records| then uv else records[k]);
    assert UniqueKeys(after) by {
      forall a, b | 0 <= a < b < |after|
        ensures !HasKey(after[b], after[a].userId, after[a].vocabularyId)
      {
        if i >= 0 && (a == i || b == i) {
          var other := if a == i then b else a;
          assert !HasKey(records[other], userId, vocabularyId);
        }
      }
    }
    assert |after| > 0;
    IndexOfUnique(after, if i < 0 then |records| else i, userId, vocabularyId);
    forall u, v | !(u == userId && v == vocabularyId)
      ensures Lookup(after, u, v) == Lookup(records, u, v)
    {
      var k := IndexOf(records, u, v);
      if k >= 0 {
        IndexOfUnique(after, k, u, v);
      }
    }
  }

  /** The mastery levels of one user's records, in store order. */
  function UserLevels(records: seq<UserVocabulary>, userId: string): (levels: seq<MasteryLevel>)
    ensures |levels| == CountWhere(records, (uv: UserVocabulary) => uv.userId == userId)
  {
    if records == [] then []
    else (if records[0].userId == userId then [records[0].masteryLevel] else []) + UserLevels(records[1..], userId)
  }

  function CountLevel(levels: seq<MasteryLevel>, m: MasteryLevel): nat
  {
    if levels == [] then 0 else (if levels[0] == m then 1 else 0) + CountLevel(levels[1..], m)
  }

  /** Each level occurs in the list as often as the user has records at that
      level. */
  lemma {:induction false} UserLevelsCount(records: seq<UserVocabulary>, userId: string, m: MasteryLevel)
    ensures CountLevel(UserLevels(records, userId), m)
      == CountWhere(records, (uv: UserVocabulary) => uv.userId == userId && uv.masteryLevel == m)
  {
    if records != [] {
      var head := if records[0].userId == userId then [records[0].masteryLevel] else [];
      UserLevelsCount(records[1..], userId, m);
      CountLevelAppend(head, UserLevels(records[1..], userId), m);
      assert CountLevel(head, m) == if records[0].userId == userId && records[0].masteryLevel == m then 1 else 0;
    }
  }

  lemma {:induction false} CountLevelAppend(a: seq<MasteryLevel>, b: seq<MasteryLevel>, m: MasteryLevel)
    ensures CountLevel(a + b, m) == CountLevel(a, m) + CountLevel(b, m)
  {
    if a == [] {
      assert a + b == b;
    } else {
      assert (a + b)[0] == a[0];
      assert (a + b)[1..] == a[1..] + b;
      CountLevelAppend(a[1..], b, m);
    }
  }

  /** The row of one level, absent when no record has that level. */
  function Group(m: MasteryLevel, count: nat): seq<MasteryGroup>
  {
    if count > 0 then [MasteryGroup(m, count)] else []
  }

  /** `groupBy(["masteryLevel"])` with `_count`: one row per level that occurs. */
  function GroupByMastery(levels: seq<MasteryLevel>): seq<MasteryGroup>
  {
    Group(New, CountLevel(levels, New)) + Group(Learning, CountLevel(levels, Learning))
    + Group(Reviewing, CountLevel(levels, Reviewing)) + Group(Mastered, CountLevel(levels, Mastered))
  }

  function SumCounts(groups: seq<MasteryGroup>): nat
  {
    if groups == [] then 0 else SumCounts(groups[..|groups| - 1]) + groups[|groups| - 1].count
  }

  function SumMastered(groups: seq<MasteryGroup>): nat
  {
    if groups == [] then 0
    else SumMastered(groups[..|groups| - 1])
         + (if groups[|groups| - 1].masteryLevel == Mastered then groups[|groups| - 1].count else 0)
  }

  lemma {:induction false} SumsAppend(a: seq<MasteryGroup>, b: seq<MasteryGroup>)
    ensures SumCounts(a + b) == SumCounts(a) + SumCounts(b)
    ensures SumMastered(a + b) == SumMastered(a) + SumMastered(b)
  {
    if b == [] {
      assert a + b == a;
    } else {
      assert (a + b)[..|a + b| - 1] == a + b[..|b| - 1];
      SumsAppend(a, b[..|b| - 1]);
    }
  }

  lemma {:induction false} LevelsPartition(levels: seq<MasteryLevel>)
    ensures CountLevel(levels, New) + CountLevel(levels, Learning)
          + CountLevel(levels, Reviewing) + CountLevel(levels, Mastered) == |levels|
  {
    if levels != [] {
      LevelsPartition(levels[1..]);
    }
  }

  lemma GroupSums(m: MasteryLevel, count: nat)
    ensures SumCounts(Group(m, count)) == count
    ensures SumMastered(Group(m, count)) == if m == Mastered then count else 0
  {
    if count > 0 {
      assert Group(m, count)[..0] == [];
    }
  }

  /** Summing the groups gives back the number of records and the number of
      mastered records. */
  lemma GroupTotals(levels: seq<MasteryLevel>)
    ensures SumCounts(GroupByMastery(levels)) == |levels|
    ensures SumMastered(GroupByMastery(levels)) == CountLevel(levels, Mastered)
  {
    var gn := Group(New, CountLevel(levels, New));
    var gl := Group(Learning, CountLevel(levels, Learning));
    var gr := Group(Reviewing, CountLevel(levels, Reviewing));
    var gm := Group(Mastered, CountLevel(levels, Mastered));
    GroupSums(New, CountLevel(levels, New));
    GroupSums(Learning, CountLevel(levels, Learning));
    GroupSums(Reviewing, CountLevel(levels, Reviewing));
    GroupSums(Mastered, CountLevel(levels, Mastered));
    SumsAppend(gn, gl);
    SumsAppend(gn + gl, gr);
    SumsAppend(gn + gl + gr, gm);
    LevelsPartition(levels);
  }

  /** The tally loop of `updateProfileStats`: every group adds to the words
      learned, mastered groups also to the mastered words. */
  method TallyMasteryGroups(stats: seq<MasteryGroup>) returns (totalWordLearned: nat, masteredWords: nat)
    ensures totalWordLearned == SumCounts(stats)
    ensures masteredWords == SumMastered(stats)
    ensures masteredWords <= totalWordLearned
  {
    totalWordLearned, masteredWords := 0, 0;
    for k := 0 to |stats|
      invariant totalWordLearned == SumCounts(stats[..k])
      invariant masteredWords == SumMastered(stats[..k])
      invariant masteredWords <= totalWordLearned
    {
      assert stats[..k + 1][..k] == stats[..k];
      totalWordLearned := totalWordLearned + stats[k].count;
      if stats[k].masteryLevel == Mastered {
        masteredWords := masteredWords + stats[k].count;
      }
    }
    assert stats[..|stats|] == stats;
  }

  predicate IsDueFor(uv: UserVocabulary, userId: string, now: int)
  {
    uv.userId == userId && IsReviewDue(uv.nextReviewDate, now)
  }

  /** `count` of the user's records whose next review is due. */
  function CountDue(records: seq<UserVocabulary>, userId: string, now: int): nat
  {
    CountWhere(records, uv => IsDueFor(uv, userId, now))
  }

  /** The profile statistics `updateProfileStats` writes. */
  function WithStats(p: Profile, records: seq<UserVocabulary>, userId: string, now: int): Profile
  {
    var levels := UserLevels(records, userId);
    p.(totalWordLearned := |levels|, masteredWords := CountLevel(levels, Mastered),
       reviewNeeded := CountDue(records, userId, now))
  }

  /** The statistics written are the number of the user's records, the number
      of them that are mastered, and the number of them that are due. */
  lemma WithStatsCounts(p: Profile, records: seq<UserVocabulary>, userId: string, now: int)
    ensures var q := WithStats(p, records, userId, now);
      && q.totalWordLearned == CountWhere(records, (uv: UserVocabulary) => uv.userId == userId)
      && q.masteredWords == CountWhere(records, (uv: UserVocabulary) => uv.userId == userId && uv.masteryLevel == Mastered)
      && q.reviewNeeded == CountWhere(records, uv => IsDueFor(uv, userId, now))
  {
    UserLevelsCount(records, userId, Mastered);
  }

  /** Orders records by next review date, oldest first. */
  predicate DueOrder(a: UserVocabulary, b: UserVocabulary)
  {
    a.nextReviewDate <= b.nextReviewDate
  }

  /** `getDueVocabularies`: the user's due records, oldest due first, at most
      `limit` of them. */
  function DueVocabularies(records: seq<UserVocabulary>, userId: string, now: int, limit: nat): seq<UserVocabulary>
  {
    var due := SortBy(Filter(records, uv => IsDueFor(uv, userId, now)), DueOrder);
    due[..Min(limit, |due|)]
  }

  /** Only the user's due records are returned, at most `limit`, as many as
      possible, in ascending next-review order, and every due record left out
      is due no earlier than every record returned. */
  lemma DueSelection(records: seq<UserVocabulary>, userId: string, now: int, limit: nat)
    ensures |DueVocabularies(records, userId, now, limit)| == Min(limit, CountDue(records, userId, now))
    ensures forall x :: x in DueVocabularies(records, userId, now, limit) ==>
      x in records && x.userId == userId && x.nextReviewDate <= now
    ensures var r := DueVocabularies(records, userId, now, limit);
      forall i, j :: 0 <= i < j < |r| ==> r[i].nextReviewDate <= r[j].nextReviewDate
    ensures var r := DueVocabularies(records, userId, now, limit);
      forall y, x :: y in records && IsDueFor(y, userId, now) && y !in r && x in r ==>
        x.nextReviewDate <= y.nextReviewDate
  {
    var filtered := Filter(records, uv => IsDueFor(uv, userId, now));
    var due := SortBy(filtered, DueOrder);
    var n := Min(limit, |due|);
    assert TotalPreorder(DueOrder);
    SortBySorted(filtered, DueOrder);
    SortByMembers(filtered, DueOrder);
    forall y, x | y in records && IsDueFor(y, userId, now) && y !in due[..n] && x in due[..n]
      ensures x.nextReviewDate <= y.nextReviewDate
    {
      SortedPrefixLeast(due, DueOrder, n, x, y);
    }
  }

  /** Orders vocabularies by creation time, oldest first. */
  predicate CreatedOrder(a: Vocabulary, b: Vocabulary)
  {
    a.createdAt <= b.createdAt
  }

  /** The vocabulary ids the user has a record for. */
  function LearnedIds(records: seq<UserVocabulary>, userId: string): set<string>
  {
    set uv | uv in records && uv.userId == userId :: uv.vocabularyId
  }

  predicate IsNewFor(v: Vocabulary, level: string, learned: set<string>)
  {
    v.level == level && v.id !in learned
  }

  /** `getNewVocabularies`: vocabularies of the level that the user has never
      reviewed, oldest first, at most `limit`. */
  function NewVocabularies(vocabularies: seq<Vocabulary>, records: seq<UserVocabulary>,
                           userId: string, level: string, limit: nat): seq<Vocabulary>
  {
    var learned := LearnedIds(records, userId);
    var unseen := SortBy(Filter(vocabularies, v => IsNewFor(v, level, learned)), CreatedOrder);
    unseen[..Min(limit, |unseen|)]
  }

  /** Only unseen vocabularies of the level are returned, as many as `limit`
      allows, oldest first, and every unseen one left out is no older than
      every one returned. */
  lemma NewSelection(vocabularies: seq<Vocabulary>, records: seq<UserVocabulary>,
                     userId: string, level: string, limit: nat)
    ensures var r := NewVocabularies(vocabularies, records, userId, level, limit);
      && |r| <= limit
      && (forall x :: x in r ==> x in vocabularies && x.level == level)
      && (forall x, uv :: x in r && uv in records && uv.userId == userId ==> uv.vocabularyId != x.id)
      && (forall i, j :: 0 <= i < j < |r| ==> r[i].createdAt <= r[j].createdAt)
    ensures |NewVocabularies(vocabularies, records, userId, level, limit)|
      == Min(limit, CountWhere(vocabularies, v => IsNewFor(v, level, LearnedIds(records, userId))))
    ensures var r := NewVocabularies(vocabularies, records, userId, level, limit);
      forall y, x :: y in vocabularies && IsNewFor(y, level, LearnedIds(records, userId)) && y !in r && x in r ==>
        x.createdAt <= y.createdAt
  {
    var learned := LearnedIds(records, userId);
    var filtered := Filter(vocabularies, v => IsNewFor(v, level, learned));
    var unseen := SortBy(filtered, CreatedOrder);
    var r := NewVocabularies(vocabularies, records, userId, level, limit);
    assert r == unseen[..Min(limit, |unseen|)];
    assert TotalPreorder(CreatedOrder);
    SortBySorted(filtered, CreatedOrder);
    SortByMembers(filtered, CreatedOrder);
    forall x | x in r
      ensures x in filtered && IsNewFor(x, level, learned)
    {
      assert x in unseen;
    }
    forall x, uv | x in r && uv in records && uv.userId == userId
      ensures uv.vocabularyId != x.id
    {
      assert uv.vocabularyId in learned;
    }
    forall i, j | 0 <= i < j < |r|
      ensures r[i].createdAt <= r[j].createdAt
    {
      assert CreatedOrder(unseen[i], unseen[j]);
    }
    forall y, x | y in vocabularies && IsNewFor(y, level, learned) && y !in r && x in r
      ensures x.createdAt <= y.createdAt
    {
      SortedPrefixLeast(unseen, CreatedOrder, Min(limit, |unseen|), x, y);
    }
  }

  class SrsStore {
    var records: seq<UserVocabulary>
    var profiles: map<string, Profile>
    var sessions: seq<FlashcardSession>

    ghost predicate Valid()
      reads this
    {
      ValidRecords(records)
    }

    constructor (profiles0: map<string, Profile>)
      ensures Valid()
      ensures records == [] && profiles == profiles0 && sessions == []
    {
      records := [];
      profiles := profiles0;
      sessions := [];
    }

    /** `recordReview`: read the pair's record, schedule it, upsert the
        result with the counters, then refresh the profile statistics. `ok` is
        false when the user has no profile: the profile update then fails
        after the record has been written. */
    method RecordReview(userId: string, vocabularyId: string, quality: ReviewQuality, isCorrect: bool, now: int)
      returns (uv: UserVocabulary, ok: bool)
      requires Valid()
      modifies this
      ensures Valid()
      ensures uv == Upserted(Lookup(old(records), userId, vocabularyId), userId, vocabularyId, quality, isCorrect, now)
      ensures records == RecordEffect(old(records), userId, vocabularyId, quality, isCorrect, now)
      ensures Lookup(records, userId, vocabularyId) == Some(uv)
      ensures ok == (userId in old(profiles))
      ensures profiles == if ok then old(profiles)[userId := WithStats(old(profiles)[userId], records, userId, now)]
                          else old(profiles)
      ensures sessions == old(sessions)
    {
      var stored := Lookup(records, userId, vocabularyId);
      var currentCard := CurrentCard(stored);
      var result := CalculateNextReview(currentCard, quality, isCorrect, now);
      if stored.None? {
        uv := UserVocabulary(userId, vocabularyId, result.repetitions, result.easeFactor, result.interval,
                             now, result.nextReviewDate, result.masteryLevel,
                             1, if isCorrect then 1 else 0, if isCorrect then 0 else 1);
      } else {
        var prev := stored.value;
        uv := prev.(repetitions := result.repetitions, easeFactor := result.easeFactor,
                    interval := result.interval, lastReviewDate := now,
                    nextReviewDate := result.nextReviewDate, masteryLevel := result.masteryLevel,
                    totalReviews := prev.totalReviews + 1,
                    correctCount := if isCorrect then prev.correctCount + 1 else prev.correctCount,
                    incorrectCount := if isCorrect then prev.incorrectCount else prev.incorrectCount + 1);
      }
      RecordEffectFrame(records, userId, vocabularyId, quality, isCorrect, now);
      var i := IndexOf(records, userId, vocabularyId);
      if i < 0 {
        records := records + [uv];
      } else {
        records := records[i := uv];
      }
      ok := UpdateProfileStats(userId, now);
    }

    /** `updateProfileStats`: group the user's records by mastery, tally the
        groups, count the due records and write the three numbers to the
        profile; a missing profile makes the update fail. */
    method UpdateProfileStats(userId: string, now: int) returns (ok: bool)
      modifies this`profiles
      ensures ok == (userId in old(profiles))
      ensures profiles == if ok then old(profiles)[userId := WithStats(old(profiles)[userId], records, userId, now)]
                          else old(profiles)
    {
      var levels := UserLevels(records, userId);
      var stats := GroupByMastery(levels);
      var totalWordLearned, masteredWords := TallyMasteryGroups(stats);
      GroupTotals(levels);
      var reviewNeeded := CountDue(records, userId, now);
      if userId !in profiles {
        return false;
      }
      profiles := profiles[userId := profiles[userId].(totalWordLearned := totalWordLearned,
                                                       masteredWords := masteredWords,
                                                       reviewNeeded := reviewNeeded)];
      ok := true;
    }

    /** `flashcardSession.create`. */
    method CreateSession(session: FlashcardSession)
      modifies this`sessions
      ensures sessions == old(sessions) + [session]
    {
      sessions := sessions + [session];
    }

    /** The closing profile update of the review route: add the XP and store
        the streak computed from the profile's previous streak fields. */
    method AwardXpAndStreak(userId: string, xpEarned: int, now: int) returns (ok: bool)
      modifies this`profiles
      ensures ok == (userId in old(profiles))
      ensures ok ==> profiles == old(profiles)[userId := old(profiles)[userId].(
                totalXP := old(profiles)[userId].totalXP + xpEarned,
                streak := Streaked(GetStreakUpdateData(Some(old(profiles)[userId].streak), now)))]
      ensures !ok ==> profiles == old(profiles)
    {
      var current := if userId in profiles then Some(profiles[userId].streak) else None;
      var streakData := GetStreakUpdateData(current, now);
      if userId !in profiles {
        return false;
      }
      var p := profiles[userId];
      profiles := profiles[userId := p.(totalXP := p.totalXP + xpEarned, streak := Streaked(streakData))];
      ok := true;
    }
  }

  /** The stored form of a streak update. */
  function Streaked(u: StreakUpdate): StreakState
  {
    StreakState(Some(u.lastStudyDate), u.currentStreak, u.longestStreak)
  }
}
