/** prisma/generate-vocabulary.ts: the existing vocabulary extended with the
    new entries (the script's A2 and B1 lists, a parameter here) whose word,
    ignoring case, the existing list lacks, then sorted by level and word. */
module GenerateVocabulary {
  import opened Common
  import opened ArrayUtils
  import opened VocabularyData

  /** `uniqueNew`: checked against the existing list only. */
  function UniqueNew(existing: seq<Vocabulary>, newVocabularies: seq<Vocabulary>): seq<Vocabulary>
  {
    Filter(newVocabularies, (v: Vocabulary) => Lower(v.word) !in Seen(existing))
  }

  /** `combined`, before the sort. */
  function Combined(existing: seq<Vocabulary>, newVocabularies: seq<Vocabulary>): seq<Vocabulary>
  {
    existing + UniqueNew(existing, newVocabularies)
  }

  /** All existing entries come first, unchanged; a new entry is added
      exactly when its word is not among the existing words; and the list
      grows by the number of such entries. */
  lemma CombinedSpec(existing: seq<Vocabulary>, newVocabularies: seq<Vocabulary>)
    ensures var r := Combined(existing, newVocabularies);
      && r[..|existing|] == existing
      && |r| == |existing| + CountWhere(newVocabularies, (v: Vocabulary) => Lower(v.word) !in Seen(existing))
      && (forall v :: v in newVocabularies ==> (v in r[|existing|..] <==> Lower(v.word) !in Seen(existing)))
      && (forall i :: |existing| <= i < |r| ==> r[i] in newVocabularies && Lower(r[i].word) !in Seen(existing))
  {
    var r := Combined(existing, newVocabularies);
    assert r[|existing|..] == UniqueNew(existing, newVocabularies);
    forall i | |existing| <= i < |r|
      ensures r[i] in UniqueNew(existing, newVocabularies)
    {
      assert r[i] == r[|existing|..][i - |existing|];
    }
  }

  /** New entries that repeat one another (ignoring case) are all kept, as
      long as the existing list lacks their word. */
  lemma NewDuplicatesKept(existing: seq<Vocabulary>, v: Vocabulary, w: Vocabulary)
    requires Lower(v.word) == Lower(w.word) && Lower(v.word) !in Seen(existing)
    ensures Combined(existing, [v, w]) == existing + [v, w]
  {
    FilterAll([v, w], (x: Vocabulary) => Lower(x.word) !in Seen(existing));
  }

  /** The script on its inputs: combine, sort, count. */
  method Generate(existing: seq<Vocabulary>, newVocabularies: seq<Vocabulary>, wordLe: (string, string) -> bool)
    returns (combined: seq<Vocabulary>, byLevel: map<string, nat>, byCategory: map<string, nat>)
    ensures combined == SortVocabulary(Combined(existing, newVocabularies), wordLe)
    ensures multiset(combined) == multiset(existing) + multiset(UniqueNew(existing, newVocabularies))
    ensures forall k :: k in byLevel ==> byLevel[k] == Occurrences(combined, LevelKey, k) >= 1
    ensures forall k :: k in byLevel <==> k in KeysInOrder(combined, LevelKey)
    ensures forall k :: k in byCategory ==> byCategory[k] == Occurrences(combined, CategoryKey, k) >= 1
    ensures forall k :: k in byCategory <==> k in KeysInOrder(combined, CategoryKey)
    ensures SumCounts(combined, LevelKey, KeysInOrder(combined, LevelKey)) == |combined|
    ensures SumCounts(combined, CategoryKey, KeysInOrder(combined, CategoryKey)) == |combined|
  {
    var uniqueNew := UniqueNew(existing, newVocabularies);
    combined := existing + uniqueNew;
    combined := SortVocabulary(combined, wordLe);
    byLevel, byCategory := Distribution(combined);
  }
}
