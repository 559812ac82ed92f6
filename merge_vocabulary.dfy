/** prisma/merge-vocabulary.ts: the main vocabulary list extended with the
    entries of the expansion files whose word (ignoring case) it does not
    have yet, then sorted by level and word. An expansion file is `None`
    when it does not exist. */
module MergeVocabulary {
  import opened Common
  import opened ArrayUtils
  import opened VocabularyData

  /** `uniqueNew`: the file's entries whose word is not in `seen`. */
  function UniqueNew(file: seq<Vocabulary>, seen: set<string>): seq<Vocabulary>
  {
    Filter(file, (v: Vocabulary) => Lower(v.word) !in seen)
  }

  /** The list after the loop over the expansion files. */
  function Merged(main: seq<Vocabulary>, files: seq<Option<seq<Vocabulary>>>): seq<Vocabulary>
  {
    if files == [] then main
    else
      var prev := Merged(main, files[..|files| - 1]);
      var file := files[|files| - 1];
      if file.None? then prev else prev + UniqueNew(file.value, Seen(prev))
  }


  lemma SeenSnoc(vs: seq<Vocabulary>, v: Vocabulary)
    ensures Seen(vs + [v]) == Seen(vs) + {Lower(v.word)}
  {
    SeenAppend(vs, [v]);
  }

  /** `allData.push(...uniqueNew)` with `existingWords` kept in step: the
      entries are appended in order and the set of words follows the list. */
  method AppendAll(allData: seq<Vocabulary>, existingWords: set<string>, entries: seq<Vocabulary>)
    returns (allData': seq<Vocabulary>, existingWords': set<string>)
    requires existingWords == Seen(allData)
    ensures allData' == allData + entries
    ensures existingWords' == Seen(allData')
  {
    allData', existingWords' := allData, existingWords;
    for j := 0 to |entries|
      invariant allData' == allData + entries[..j]
      invariant existingWords' == Seen(allData')
    {
      PrefixStep(entries, j);
      SeenSnoc(allData', entries[j]);
      existingWords' := existingWords' + {Lower(entries[j].word)};
      allData' := allData' + [entries[j]];
    }
    assert entries[..|entries|] == entries;
  }

  /** The merge loop as written: `allData` grows, `existingWords` follows
      it, and `totalNew` counts the added entries. */
  method MergeFiles(main: seq<Vocabulary>, files: seq<Option<seq<Vocabulary>>>)
    returns (allData: seq<Vocabulary>, totalNew: nat)
    ensures allData == Merged(main, files)
    ensures |allData| == |main| + totalNew
  {
    totalNew := 0;
    allData := main;
    var existingWords := set v | v in main :: Lower(v.word);
    for k := 0 to |files|
      invariant allData == Merged(main, files[..k])
      invariant existingWords == Seen(allData)
      invariant |allData| == |main| + totalNew
    {
      PrefixStep(files, k);
      if files[k].Some? {
        var uniqueNew := UniqueNew(files[k].value, existingWords);
        allData, existingWords := AppendAll(allData, existingWords, uniqueNew);
        totalNew := totalNew + |uniqueNew|;
      }
    }
    assert files[..|files|] == files;
  }

  /** The whole script on its inputs: merge (with the within-file check the
      script evidently intends, see `MergedUnique`), sort, count. */
  method MergeVocabularies(main: seq<Vocabulary>, files: seq<Option<seq<Vocabulary>>>,
                           wordLe: (string, string) -> bool)
    returns (allData: seq<Vocabulary>, totalNew: nat, byLevel: map<string, nat>, byCategory: map<string, nat>)
    ensures allData == SortVocabulary(MergedUnique(main, files), wordLe)
    ensures |allData| == |main| + totalNew
    ensures forall k :: k in byLevel ==> byLevel[k] == Occurrences(allData, LevelKey, k) >= 1
    ensures forall k :: k in byLevel <==> k in KeysInOrder(allData, LevelKey)
    ensures forall k :: k in byCategory ==> byCategory[k] == Occurrences(allData, CategoryKey, k) >= 1
    ensures forall k :: k in byCategory <==> k in KeysInOrder(allData, CategoryKey)
    ensures SumCounts(allData, LevelKey, KeysInOrder(allData, LevelKey)) == |allData|
    ensures SumCounts(allData, CategoryKey, KeysInOrder(allData, CategoryKey)) == |allData|
  {
    allData, totalNew := MergeFilesUnique(main, files);
    allData := SortVocabulary(allData, wordLe);
    byLevel, byCategory := Distribution(allData);
  }

  /** The words of the entries of the files that exist. */
  function FileWords(files: seq<Option<seq<Vocabulary>>>): set<string>
  {
    set i, v | 0 <= i < |files| && files[i].Some? && v in files[i].value :: Lower(v.word)
  }

  /** The main list comes first, unchanged; every later entry is an entry of
      an existing file whose word the main list lacks; and every word of an
      existing file ends up in the list. */
  lemma {:induction false} MergedSpec(main: seq<Vocabulary>, files: seq<Option<seq<Vocabulary>>>)
    ensures var r := Merged(main, files);
      && |main| <= |r| && r[..|main|] == main
      && (forall i :: |main| <= i < |r| ==> Lower(r[i].word) !in Seen(main))
      && Seen(r) == Seen(main) + FileWords(files)
  {
    if files != [] {
      var init := files[..|files| - 1];
      var prev := Merged(main, init);
      MergedSpec(main, init);
      var file := files[|files| - 1];
      var r := Merged(main, files);
      assert FileWords(files) == FileWords(init) + (if file.Some? then Seen(file.value) else {}) by {
        FileWordsSnoc(files);
      }
      if file.Some? {
        var added := UniqueNew(file.value, Seen(prev));
        SeenAppend(prev, added);
        assert r == prev + added;
        assert r[..|main|] == prev[..|main|];
        forall i | |main| <= i < |r|
          ensures Lower(r[i].word) !in Seen(main)
        {
          if i >= |prev| {
            assert r[i] in added;
          }
        }
        UniqueNewCovers(file.value, Seen(prev));
      }
    }
  }

  lemma FileWordsSnoc(files: seq<Option<seq<Vocabulary>>>)
    requires files != []
    ensures var file := files[|files| - 1];
      FileWords(files) == FileWords(files[..|files| - 1]) + (if file.Some? then Seen(file.value) else {})
  {
    var init := files[..|files| - 1];
    var file := files[|files| - 1];
    forall w | w in FileWords(files)
      ensures w in FileWords(init) || (file.Some? && w in Seen(file.value))
    {
      var i, v :| 0 <= i < |files| && files[i].Some? && v in files[i].value && w == Lower(v.word);
      if i < |init| {
        assert init[i] == files[i];
      }
    }
    forall w | w in FileWords(init)
      ensures w in FileWords(files)
    {
      var i, v :| 0 <= i < |init| && init[i].Some? && v in init[i].value && w == Lower(v.word);
      assert files[i] == init[i];
    }
  }

  /** What is seen after adding `uniqueNew` is what was seen plus the file. */
  lemma UniqueNewCovers(file: seq<Vocabulary>, seen: set<string>)
    ensures seen + Seen(UniqueNew(file, seen)) == seen + Seen(file)
  {
    var added := UniqueNew(file, seen);
    forall w | w in Seen(file) && w !in seen
      ensures w in Seen(added)
    {
      var v :| v in file && Lower(v.word) == w;
      assert v in added;
    }
  }

  const Upper: Vocabulary := Vocabulary("Apple", "", "", "", Daily, A1)
  const Lowered: Vocabulary := Upper.(word := "apple")

  lemma AppleSeen()
    ensures Lower(Upper.word) == "apple" && Lower(Lowered.word) == "apple"
    ensures Seen([Upper]) == {"apple"}
  {
    assert Lower("Apple") == "apple";
    assert Lower("apple") == "apple";
  }

  /** Within one file, entries that differ only in case are all added: the
      file is filtered against the words seen before it, not against its own
      earlier entries. */
  lemma SameFileDuplicatesKept()
    ensures Merged([], [Some([Upper, Lowered])]) == [Upper, Lowered]
    ensures Lower(Upper.word) == Lower(Lowered.word)
  {
    AppleSeen();
    var files := [Some([Upper, Lowered])];
    assert files[..0] == [];
    assert Seen([]) == {};
    FilterAll([Upper, Lowered], (v: Vocabulary) => Lower(v.word) !in {});
  }

  /** Across files, an entry whose word an earlier file added is dropped. */
  lemma LaterFileDuplicateDropped()
    ensures Merged([], [Some([Upper]), Some([Lowered])]) == [Upper]
  {
    AppleSeen();
    var files := [Some([Upper]), Some([Lowered])];
    assert files[..1] == [Some([Upper])];
    assert files[..1][..0] == [];
    assert Seen([]) == {};
    FilterAll([Upper], (v: Vocabulary) => Lower(v.word) !in {});
    assert Merged([], files[..1]) == [Upper];
    var dropped := UniqueNew([Lowered], {"apple"});
    assert forall x :: x in dropped ==> x == Lowered && Lower(x.word) !in {"apple"};
    assert dropped == [];
  }

  /** The entries of the files that exist, file after file. */
  function Entries(files: seq<Option<seq<Vocabulary>>>): seq<Vocabulary>
  {
    if files == [] then []
    else
      var file := files[|files| - 1];
      Entries(files[..|files| - 1]) + (if file.Some? then file.value else [])
  }

  /** The merge with each entry checked against every word met so far,
      including the earlier entries of its own file. */
  function Deduped(acc: seq<Vocabulary>, entries: seq<Vocabulary>): seq<Vocabulary>
  {
    if entries == [] then acc
    else
      var prev := Deduped(acc, entries[..|entries| - 1]);
      var v := entries[|entries| - 1];
      if Lower(v.word) in Seen(prev) then prev else prev + [v]
  }

  /** The merge as evidently intended. */
  function MergedUnique(main: seq<Vocabulary>, files: seq<Option<seq<Vocabulary>>>): seq<Vocabulary>
  {
    Deduped(main, Entries(files))
  }

  /** One more entry of the intended merge: appended only when its word is unseen. */
  lemma DedupedSnoc(acc: seq<Vocabulary>, entries: seq<Vocabulary>, v: Vocabulary)
    ensures var prev := Deduped(acc, entries);
      Deduped(acc, entries + [v]) == if Lower(v.word) in Seen(prev) then prev else prev + [v]
  {
    assert (entries + [v])[..|entries|] == entries;
  }

  /** The intended inner loop over one file: each entry is checked against
      the words met so far, the earlier entries of the file included. */
  method AppendUnseen(main: seq<Vocabulary>, done: seq<Vocabulary>, file: seq<Vocabulary>,
                      allData0: seq<Vocabulary>, existingWords0: set<string>, totalNew0: nat)
    returns (allData: seq<Vocabulary>, existingWords: set<string>, totalNew: nat)
    requires allData0 == Deduped(main, done) && existingWords0 == Seen(allData0)
    requires |allData0| == |main| + totalNew0
    ensures allData == Deduped(main, done + file) && existingWords == Seen(allData)
    ensures |allData| == |main| + totalNew
  {
    allData, existingWords, totalNew := allData0, existingWords0, totalNew0;
    assert done + file[..0] == done;
    for j := 0 to |file|
      invariant allData == Deduped(main, done + file[..j])
      invariant existingWords == Seen(allData)
      invariant |allData| == |main| + totalNew
    {
      PrefixStep(file, j);
      assert done + file[..j + 1] == (done + file[..j]) + [file[j]];
      DedupedSnoc(main, done + file[..j], file[j]);
      if Lower(file[j].word) !in existingWords {
        SeenSnoc(allData, file[j]);
        existingWords := existingWords + {Lower(file[j].word)};
        allData := allData + [file[j]];
        totalNew := totalNew + 1;
      }
    }
    assert file[..|file|] == file;
  }

  /** The merge loop as evidently intended: each entry is checked against the
      words met so far, the earlier entries of its own file included. */
  method MergeFilesUnique(main: seq<Vocabulary>, files: seq<Option<seq<Vocabulary>>>)
    returns (allData: seq<Vocabulary>, totalNew: nat)
    ensures allData == MergedUnique(main, files)
    ensures |allData| == |main| + totalNew
  {
    totalNew := 0;
    allData := main;
    var existingWords := set v | v in main :: Lower(v.word);
    for k := 0 to |files|
      invariant allData == MergedUnique(main, files[..k])
      invariant existingWords == Seen(allData)
      invariant |allData| == |main| + totalNew
    {
      PrefixStep(files, k);
      if files[k].Some? {
        var file := files[k].value;
        assert Entries(files[..k + 1]) == Entries(files[..k]) + file;
        allData, existingWords, totalNew := AppendUnseen(main, Entries(files[..k]), file, allData, existingWords, totalNew);
      } else {
        assert Entries(files[..k + 1]) == Entries(files[..k]);
      }
    }
    assert files[..|files|] == files;
  }

  /** The list starts with `acc`; the added entries are words `acc` lacks,
      no two alike ignoring case; and every entry's word ends up seen. */
  lemma DedupedSpec(acc: seq<Vocabulary>, entries: seq<Vocabulary>)
    ensures var r := Deduped(acc, entries);
      && |acc| <= |r| && r[..|acc|] == acc
      && (forall i :: |acc| <= i < |r| ==> Lower(r[i].word) !in Seen(acc))
      && (forall i, j :: |acc| <= i < j < |r| ==> Lower(r[i].word) != Lower(r[j].word))
      && Seen(r) == Seen(acc) + Seen(entries)
  {
    DedupedSeen(acc, entries);
    DedupedFresh(acc, entries);
  }

  lemma {:induction false} DedupedSeen(acc: seq<Vocabulary>, entries: seq<Vocabulary>)
    ensures var r := Deduped(acc, entries);
      |acc| <= |r| && r[..|acc|] == acc && Seen(r) == Seen(acc) + Seen(entries)
  {
    if entries != [] {
      var init := entries[..|entries| - 1];
      var v := entries[|entries| - 1];
      var prev := Deduped(acc, init);
      DedupedSeen(acc, init);
      assert entries == init + [v];
      SeenSnoc(init, v);
      if Lower(v.word) !in Seen(prev) {
        SeenSnoc(prev, v);
        assert (prev + [v])[..|acc|] == prev[..|acc|];
      }
    }
  }

  lemma {:induction false} DedupedFresh(acc: seq<Vocabulary>, entries: seq<Vocabulary>)
    ensures var r := Deduped(acc, entries);
      && (forall i :: |acc| <= i < |r| ==> Lower(r[i].word) !in Seen(acc))
      && (forall i, j :: |acc| <= i < j < |r| ==> Lower(r[i].word) != Lower(r[j].word))
  {
    if entries != [] {
      var init := entries[..|entries| - 1];
      var v := entries[|entries| - 1];
      var prev := Deduped(acc, init);
      DedupedFresh(acc, init);
      DedupedSeen(acc, init);
      if Lower(v.word) !in Seen(prev) {
        AppendFresh(acc, prev, v);
      }
    }
  }

  /** Appending an entry whose word is unseen keeps the added words fresh. */
  lemma AppendFresh(acc: seq<Vocabulary>, prev: seq<Vocabulary>, v: Vocabulary)
    requires |acc| <= |prev| && Seen(acc) <= Seen(prev)
    requires forall i :: |acc| <= i < |prev| ==> Lower(prev[i].word) !in Seen(acc)
    requires forall i, j :: |acc| <= i < j < |prev| ==> Lower(prev[i].word) != Lower(prev[j].word)
    requires Lower(v.word) !in Seen(prev)
    ensures var r := prev + [v];
      && (forall i :: |acc| <= i < |r| ==> Lower(r[i].word) !in Seen(acc))
      && (forall i, j :: |acc| <= i < j < |r| ==> Lower(r[i].word) != Lower(r[j].word))
  {
    var r := prev + [v];
    forall i | |acc| <= i < |prev|
      ensures Lower(r[i].word) != Lower(v.word)
    {
      assert r[i] == prev[i] && prev[i] in prev;
    }
  }

  /** The corrected merge keeps the main list, adds only words it lacks,
      never adds a word twice, and loses no word of an existing file. */
  lemma MergedUniqueSpec(main: seq<Vocabulary>, files: seq<Option<seq<Vocabulary>>>)
    ensures var r := MergedUnique(main, files);
      && |main| <= |r| && r[..|main|] == main
      && (forall i :: |main| <= i < |r| ==> Lower(r[i].word) !in Seen(main))
      && (forall i, j :: |main| <= i < j < |r| ==> Lower(r[i].word) != Lower(r[j].word))
      && Seen(r) == Seen(main) + FileWords(files)
  {
    DedupedSpec(main, Entries(files));
    EntriesWords(files);
  }

  lemma {:induction false} EntriesWords(files: seq<Option<seq<Vocabulary>>>)
    ensures Seen(Entries(files)) == FileWords(files)
  {
    if files != [] {
      var init := files[..|files| - 1];
      var file := files[|files| - 1];
      EntriesWords(init);
      FileWordsSnoc(files);
      SeenAppend(Entries(init), if file.Some? then file.value else []);
    }
  }

  predicate NoCaseDuplicates(file: seq<Vocabulary>)
  {
    forall i, j :: 0 <= i < j < |file| ==> Lower(file[i].word) != Lower(file[j].word)
  }

  /** Deduplicating entry by entry over two lists is doing the first, then
      the second. */
  lemma {:induction false} DedupedAppend(acc: seq<Vocabulary>, es: seq<Vocabulary>, fs: seq<Vocabulary>)
    ensures Deduped(acc, es + fs) == Deduped(Deduped(acc, es), fs)
  {
    if fs == [] {
      assert es + fs == es;
    } else {
      var init := fs[..|fs| - 1];
      DedupedAppend(acc, es, init);
      assert (es + fs)[..|es + fs| - 1] == es + init;
      assert (es + fs)[|es + fs| - 1] == fs[|fs| - 1];
    }
  }

  /** The last entry of a file without case duplicates repeats no word of
      the entries the filter kept before it. */
  lemma LastNotKept(file: seq<Vocabulary>, seen: set<string>)
    requires file != [] && NoCaseDuplicates(file)
    ensures Lower(file[|file| - 1].word) !in Seen(UniqueNew(file[..|file| - 1], seen))
  {
  }

  /** On one file without internal case duplicates, entry-by-entry
      deduplication and the whole-file filter agree. */
  lemma {:induction false} DedupedFile(acc: seq<Vocabulary>, file: seq<Vocabulary>)
    requires NoCaseDuplicates(file)
    ensures Deduped(acc, file) == acc + UniqueNew(file, Seen(acc))
  {
    if file != [] {
      var init := file[..|file| - 1];
      var v := file[|file| - 1];
      var kept := UniqueNew(init, Seen(acc));
      assert Deduped(acc, init) == acc + kept by {
        assert NoCaseDuplicates(init);
        DedupedFile(acc, init);
      }
      assert Lower(v.word) in Seen(acc + kept) <==> Lower(v.word) in Seen(acc) by {
        SeenAppend(acc, kept);
        LastNotKept(file, Seen(acc));
      }
      assert UniqueNew(file, Seen(acc)) == kept + (if Lower(v.word) !in Seen(acc) then [v] else []) by {
        FilterSnoc(file, (x: Vocabulary) => Lower(x.word) !in Seen(acc));
      }
      if Lower(v.word) !in Seen(acc) {
        assert acc + kept + [v] == acc + (kept + [v]);
      }
    }
  }

  /** The correction changes nothing when no file repeats a word within
      itself. */
  lemma {:induction false} MergedUniqueAgrees(main: seq<Vocabulary>, files: seq<Option<seq<Vocabulary>>>)
    requires forall i :: 0 <= i < |files| && files[i].Some? ==> NoCaseDuplicates(files[i].value)
    ensures MergedUnique(main, files) == Merged(main, files)
  {
    if files != [] {
      var init := files[..|files| - 1];
      var file := files[|files| - 1];
      MergedUniqueAgrees(main, init);
      var rest := if file.Some? then file.value else [];
      DedupedAppend(main, Entries(init), rest);
      if file.Some? {
        DedupedFile(Merged(main, init), file.value);
      }
    }
  }
}
