/** The request validators of features/flashcard/lib/srs-validation.ts. Each
    zod schema becomes a parser from a JSON value to the typed value it
    admits, `None` standing for a failed `safeParse`. Unknown object keys are
    ignored, as zod's objects strip them. */
module SrsValidation {
  import opened Common
  import opened SrsAlgorithm

  datatype Json =
    | JNull
    | JBool(b: bool)
    | JNum(n: real)
    | JStr(s: string)
    | JArr(items: seq<Json>)
    | JObj(fields: map<string, Json>)

  datatype StudyMode = Review | NewWords | Flashcard | Matching | Choice | Typing | Listening

  datatype SessionMode = ReviewDue | NewOnly

  datatype ReviewEntry = ReviewEntry(vocabularyId: string, quality: ReviewQuality, isCorrect: bool, timeSpent: nat)

  datatype ReviewRequest = ReviewRequest(reviews: seq<ReviewEntry>, mode: StudyMode, duration: nat)

  datatype SessionQuery = SessionQuery(mode: SessionMode, limit: int)

  const MaxReviews := 100
  const MaxSessionLimit := 50
  const DefaultSessionLimit := 20

  function QualityName(q: ReviewQuality): string
  {
    match q
    case Forgot => "forgot"
    case Hard => "hard"
    case Normal => "normal"
    case Easy => "easy"
  }

  function StudyModeName(m: StudyMode): string
  {
    match m
    case Review => "review"
    case NewWords => "new"
    case Flashcard => "flashcard"
    case Matching => "matching"
    case Choice => "choice"
    case Typing => "typing"
    case Listening => "listening"
  }

  /** `reviewQualitySchema`: one of the four names. */
  function ParseQuality(j: Json): (r: Option<ReviewQuality>)
    ensures r.Some? <==> j.JStr? && j.s in {"forgot", "hard", "normal", "easy"}
    ensures r.Some? ==> j == JStr(QualityName(r.value))
  {
    if j == JStr("forgot") then Some(Forgot)
    else if j == JStr("hard") then Some(Hard)
    else if j == JStr("normal") then Some(Normal)
    else if j == JStr("easy") then Some(Easy)
    else None
  }

  /** `studyModeSchema`: one of the seven study modes. */
  function ParseStudyMode(j: Json): (r: Option<StudyMode>)
    ensures r.Some? <==>
      j.JStr? && j.s in {"review", "new", "flashcard", "matching", "choice", "typing", "listening"}
    ensures r.Some? ==> j == JStr(StudyModeName(r.value))
  {
    if j == JStr("review") then Some(Review)
    else if j == JStr("new") then Some(NewWords)
    else if j == JStr("flashcard") then Some(Flashcard)
    else if j == JStr("matching") then Some(Matching)
    else if j == JStr("choice") then Some(Choice)
    else if j == JStr("typing") then Some(Typing)
    else if j == JStr("listening") then Some(Listening)
    else None
  }

  /** `z.number().int().min(0)`. */
  function ParseNonNegativeInt(j: Json): (r: Option<nat>)
    ensures r.Some? <==> j.JNum? && j.n >= 0.0 && j.n == j.n.Floor as real
    ensures r.Some? ==> j == JNum(r.value as real)
  {
    if j.JNum? && j.n >= 0.0 && j.n == j.n.Floor as real then Some(j.n.Floor) else None
  }

  /** Field `k` of an object, absent for a missing key or a non-object. */
  function Field(j: Json, k: string): Option<Json>
  {
    if j.JObj? && k in j.fields then Some(j.fields[k]) else None
  }

  /** `reviewEntrySchema`. isCorrect is any boolean: nothing ties it to the quality. */
  function ParseReviewEntry(j: Json): (r: Option<ReviewEntry>)
    ensures r.Some? <==>
      && j.JObj?
      && "vocabularyId" in j.fields && j.fields["vocabularyId"].JStr? && |j.fields["vocabularyId"].s| >= 1
      && "quality" in j.fields && ParseQuality(j.fields["quality"]).Some?
      && "isCorrect" in j.fields && j.fields["isCorrect"].JBool?
      && "timeSpent" in j.fields && ParseNonNegativeInt(j.fields["timeSpent"]).Some?
  {
    var id := Field(j, "vocabularyId");
    var quality := Field(j, "quality");
    var isCorrect := Field(j, "isCorrect");
    var timeSpent := Field(j, "timeSpent");
    if id.Some? && id.value.JStr? && |id.value.s| >= 1
       && quality.Some? && ParseQuality(quality.value).Some?
       && isCorrect.Some? && isCorrect.value.JBool?
       && timeSpent.Some? && ParseNonNegativeInt(timeSpent.value).Some?
    then Some(ReviewEntry(id.value.s, ParseQuality(quality.value).value,
                          isCorrect.value.b, ParseNonNegativeInt(timeSpent.value).value))
    else None
  }

  /** The JSON form a client sends for one review entry. */
  function EntryToJson(e: ReviewEntry): Json
  {
    JObj(map[
      "vocabularyId" := JStr(e.vocabularyId),
      "quality" := JStr(QualityName(e.quality)),
      "isCorrect" := JBool(e.isCorrect),
      "timeSpent" := JNum(e.timeSpent as real)])
  }

  /** Every well-formed entry (non-empty id) survives validation unchanged,
      including the pairing `forgot` with isCorrect = true. */
  lemma EntryRoundTrip(e: ReviewEntry)
    requires |e.vocabularyId| >= 1
    ensures ParseReviewEntry(EntryToJson(e)) == Some(e)
  {
    var j := EntryToJson(e);
    assert j.fields["quality"] == JStr(QualityName(e.quality));
    assert ParseNonNegativeInt(j.fields["timeSpent"]) == Some(e.timeSpent);
    match e.quality
    case Forgot =>
    case Hard =>
    case Normal =>
    case Easy =>
  }

  /** Parses every element of an array, failing if any element fails. */
  function ParseEntries(items: seq<Json>): (r: Option<seq<ReviewEntry>>)
    ensures r.Some? <==> forall i :: 0 <= i < |items| ==> ParseReviewEntry(items[i]).Some?
    ensures r.Some? ==> |r.value| == |items|
    ensures r.Some? ==> forall i :: 0 <= i < |items| ==> r.value[i] == ParseReviewEntry(items[i]).value
  {
    if items == [] then Some([])
    else
      var head := ParseReviewEntry(items[0]);
      var tail := ParseEntries(items[1..]);
      if head.Some? && tail.Some? then
        Some([head.value] + tail.value)
      else
        assert head.None? ==> !ParseReviewEntry(items[0]).Some?;
        None
  }

  /** `reviewRequestSchema`: 1 to 100 valid entries, a study mode and a
      non-negative integer duration. */
  function ParseReviewRequest(j: Json): (r: Option<ReviewRequest>)
    ensures r.Some? ==> 1 <= |r.value.reviews| <= MaxReviews
    ensures r.Some? <==>
      && j.JObj?
      && "reviews" in j.fields && j.fields["reviews"].JArr?
      && 1 <= |j.fields["reviews"].items| <= MaxReviews
      && (forall i :: 0 <= i < |j.fields["reviews"].items| ==>
            ParseReviewEntry(j.fields["reviews"].items[i]).Some?)
      && "mode" in j.fields && ParseStudyMode(j.fields["mode"]).Some?
      && "duration" in j.fields && ParseNonNegativeInt(j.fields["duration"]).Some?
    ensures r.Some? ==> |r.value.reviews| == |j.fields["reviews"].items|
    ensures r.Some? ==> forall i :: 0 <= i < |r.value.reviews| ==>
      r.value.reviews[i] == ParseReviewEntry(j.fields["reviews"].items[i]).value
    ensures r.Some? ==> j.fields["mode"] == JStr(StudyModeName(r.value.mode))
    ensures r.Some? ==> j.fields["duration"] == JNum(r.value.duration as real)
  {
    var reviews := Field(j, "reviews");
    var mode := Field(j, "mode");
    var duration := Field(j, "duration");
    if reviews.Some? && reviews.value.JArr?
       && 1 <= |reviews.value.items| <= MaxReviews
       && ParseEntries(reviews.value.items).Some?
       && mode.Some? && ParseStudyMode(mode.value).Some?
       && duration.Some? && ParseNonNegativeInt(duration.value).Some?
    then Some(ReviewRequest(ParseEntries(reviews.value.items).value,
                            ParseStudyMode(mode.value).value,
                            ParseNonNegativeInt(duration.value).value))
    else None
  }

  /** `sessionQuerySchema`: mode review or new (default review), limit an
      integer in 1..50 (default 20). Each missing key takes its own default;
      a key that is present gives its value. */
  function ParseSessionQuery(j: Json): (r: Option<SessionQuery>)
    requires j.JObj?
    ensures r.Some? ==> 1 <= r.value.limit <= MaxSessionLimit
    ensures "mode" !in j.fields && "limit" !in j.fields ==> r == Some(SessionQuery(ReviewDue, 20))
    ensures r.Some? <==>
      && ("mode" in j.fields ==> j.fields["mode"] in {JStr("review"), JStr("new")})
      && ("limit" in j.fields ==>
            && j.fields["limit"].JNum?
            && j.fields["limit"].n == j.fields["limit"].n.Floor as real
            && 1.0 <= j.fields["limit"].n <= 50.0)
    ensures r.Some? ==> (r.value.mode == NewOnly <==> "mode" in j.fields && j.fields["mode"] == JStr("new"))
    ensures r.Some? && "limit" in j.fields ==> r.value.limit as real == j.fields["limit"].n
    ensures r.Some? && "limit" !in j.fields ==> r.value.limit == DefaultSessionLimit
  {
    var mode :=
      if "mode" !in j.fields then Some(ReviewDue)
      else if j.fields["mode"] == JStr("review") then Some(ReviewDue)
      else if j.fields["mode"] == JStr("new") then Some(NewOnly)
      else None;
    var limit :=
      if "limit" !in j.fields then Some(DefaultSessionLimit)
      else
        var l := j.fields["limit"];
        if l.JNum? && l.n == l.n.Floor as real && 1.0 <= l.n <= 50.0 then Some(l.n.Floor) else None;
    if mode.Some? && limit.Some? then Some(SessionQuery(mode.value, limit.value)) else None
  }
}
