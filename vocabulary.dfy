/** The vocabulary entry shared by the two data scripts under prisma/, the
    case-insensitive word key they deduplicate on, and the level-then-word
    order both sort by. `toLowerCase` is ASCII lowercasing and `localeCompare`
    is an abstract word order `wordLe`, with `wordLe(a, b)` standing for
    `a.localeCompare(b) <= 0`. */
module VocabularyData {
  import opened Common
  import opened Sorting
  import opened ArrayUtils

  datatype Level = A1 | A2 | B1 | B2 | C1 | C2

  datatype Category = Daily | Business | Toeic | Travel

  datatype Vocabulary = Vocabulary(word: string, meaning: string, pronunciation: string,
                                   exampleSentence: string, category: Category, level: Level)

  /** `levelOrder`. */
  function LevelOrder(l: Level): nat
  {
    match l
    case A1 => 1
    case A2 => 2
    case B1 => 3
    case B2 => 4
    case C1 => 5
    case C2 => 6
  }

  /** The level as the record key it becomes. */
  function LevelKey(v: Vocabulary): string
  {
    match v.level
    case A1 => "A1"
    case A2 => "A2"
    case B1 => "B1"
    case B2 => "B2"
    case C1 => "C1"
    case C2 => "C2"
  }

  function CategoryKey(v: Vocabulary): string
  {
    match v.category
    case Daily => "daily"
    case Business => "business"
    case Toeic => "toeic"
    case Travel => "travel"
  }

  /** The levels are ranked 1 to 6 without ties, and each keeps its own key. */
  lemma LevelOrderRanks(a: Vocabulary, b: Vocabulary)
    ensures 1 <= LevelOrder(a.level) <= 6
    ensures LevelOrder(a.level) == LevelOrder(b.level) <==> a.level == b.level
    ensures LevelKey(a) == LevelKey(b) <==> a.level == b.level
  {
  }

  function LowerChar(c: char): char
  {
    if 'A' <= c <= 'Z' then (c as int + 32) as char else c
  }

  /** `toLowerCase` on ASCII letters. */
  function Lower(s: string): (r: string)
    ensures |r| == |s|
    ensures forall i :: 0 <= i < |s| ==> r[i] == LowerChar(s[i])
  {
    seq(|s|, i requires 0 <= i < |s| => LowerChar(s[i]))
  }

  /** Lowercasing twice changes nothing more, and it maps no upper-case
      letter to itself. */
  lemma LowerIdempotent(s: string)
    ensures Lower(Lower(s)) == Lower(s)
    ensures forall i :: 0 <= i < |s| ==> !('A' <= Lower(s)[i] <= 'Z')
  {
  }

  /** The set `new Set(data.map(v => v.word.toLowerCase()))`. */
  function Seen(vs: seq<Vocabulary>): set<string>
  {
    set v | v in vs :: Lower(v.word)
  }

  lemma SeenAppend(vs: seq<Vocabulary>, ws: seq<Vocabulary>)
    ensures Seen(vs + ws) == Seen(vs) + Seen(ws)
  {
    assert forall v :: v in vs + ws <==> v in vs || v in ws;
  }

  /** The sort comparator: lower level first, then by word. */
  function ByLevelThenWord(wordLe: (string, string) -> bool): (Vocabulary, Vocabulary) -> bool
  {
    (a: Vocabulary, b: Vocabulary) =>
      LevelOrder(a.level) < LevelOrder(b.level)
      || (LevelOrder(a.level) == LevelOrder(b.level) && wordLe(a.word, b.word))
  }

  /** `data.sort(...)` with that comparator. */
  function SortVocabulary(vs: seq<Vocabulary>, wordLe: (string, string) -> bool): seq<Vocabulary>
  {
    SortBy(vs, ByLevelThenWord(wordLe))
  }

  lemma ComparatorPreorder(wordLe: (string, string) -> bool)
    requires TotalPreorder(wordLe)
    ensures TotalPreorder(ByLevelThenWord(wordLe))
  {
    var le := ByLevelThenWord(wordLe);
    forall a: Vocabulary, b: Vocabulary
      ensures le(a, b) || le(b, a)
    {
      assert wordLe(a.word, b.word) || wordLe(b.word, a.word);
    }
    forall a: Vocabulary, b: Vocabulary, c: Vocabulary | le(a, b) && le(b, c)
      ensures le(a, c)
    {
      if LevelOrder(a.level) == LevelOrder(b.level) == LevelOrder(c.level) {
        assert wordLe(a.word, b.word) && wordLe(b.word, c.word);
      }
    }
  }

  /** For a total word order, the sorted list holds the same entries, the
      levels never go down, and within a level the words are in order. */
  lemma SortVocabularySpec(vs: seq<Vocabulary>, wordLe: (string, string) -> bool)
    requires TotalPreorder(wordLe)
    ensures var r := SortVocabulary(vs, wordLe);
      && multiset(r) == multiset(vs)
      && (forall i, j :: 0 <= i < j < |r| ==> LevelOrder(r[i].level) <= LevelOrder(r[j].level))
      && (forall i, j :: 0 <= i < j < |r| && r[i].level == r[j].level ==> wordLe(r[i].word, r[j].word))
  {
    var le := ByLevelThenWord(wordLe);
    ComparatorPreorder(wordLe);
    SortBySorted(vs, le);
    var r := SortVocabulary(vs, wordLe);
    forall i, j | 0 <= i < j < |r|
      ensures LevelOrder(r[i].level) <= LevelOrder(r[j].level)
      ensures r[i].level == r[j].level ==> wordLe(r[i].word, r[j].word)
    {
      assert le(r[i], r[j]);
    }
  }

  /** The two `reduce`s into per-level and per-category counts, as a loop
      each: every count is the number of entries under its key, and the
      counts of each record add up to the number of entries. */
  method Distribution(vs: seq<Vocabulary>) returns (byLevel: map<string, nat>, byCategory: map<string, nat>)
    ensures forall k :: k in byLevel ==> byLevel[k] == Occurrences(vs, LevelKey, k) >= 1
    ensures forall k :: k in byLevel <==> k in KeysInOrder(vs, LevelKey)
    ensures forall k :: k in byCategory ==> byCategory[k] == Occurrences(vs, CategoryKey, k) >= 1
    ensures forall k :: k in byCategory <==> k in KeysInOrder(vs, CategoryKey)
    ensures SumCounts(vs, LevelKey, KeysInOrder(vs, LevelKey)) == |vs|
    ensures SumCounts(vs, CategoryKey, KeysInOrder(vs, CategoryKey)) == |vs|
  {
    byLevel := CountBy(vs, LevelKey);
    byCategory := CountBy(vs, CategoryKey);
    CountsSumToLength(vs, LevelKey);
    CountsSumToLength(vs, CategoryKey);
  }
}
