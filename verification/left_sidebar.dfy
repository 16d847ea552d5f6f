/**
 * The word list of components/LeftSidebar.tsx: the words matching the search
 * box and the two drop-down filters, in collation order, and the options of
 * the two drop-downs.
 *
 * `toLowerCase` is the per-character mapping `lower`; `localeCompare(_, 'tr')`
 * is the comparison `le`, read as "localeCompare(a, b, 'tr') <= 0".
 */
module LeftSidebar {
  import opened Types
  import opened Collections

  /** The "every language" option of the language drop-down. */
  const AllLanguages: string := "Tüm Diller"

  /** The "every period" option of the period drop-down. */
  const AllPeriods: string := "Tüm Dönemler"

  /** The period drop-down: the sentinel, then the three periods. */
  const AvailablePeriods: seq<string> := [AllPeriods, "Osmanlı Öncesi", "Osmanlı", "Cumhuriyet"]

  /** The three filter inputs of the sidebar. */
  datatype Filters = Filters(searchTerm: string, languageFilter: string, periodFilter: string)

  /** The sidebar's state when it mounts. */
  const InitialFilters: Filters := Filters("", AllLanguages, AllPeriods)

  function Lower(s: string, lower: char -> char): string
  {
    seq(|s|, i requires 0 <= i < |s| => lower(s[i]))
  }

  /** `sub` occurs in `s` starting at position `i`. */
  predicate OccursAt(s: string, sub: string, i: int)
  {
    0 <= i && i + |sub| <= |s| && s[i..i + |sub|] == sub
  }

  /** `s.includes(sub)`: `sub` occurs in `s` at some position. */
  predicate Contains(s: string, sub: string)
  {
    exists i :: 0 <= i <= |s| - |sub| && OccursAt(s, sub, i)
  }

  /** The filter callback: search, language and period must all match. */
  predicate Matches(w: Word, f: Filters, lower: char -> char)
  {
    && Contains(Lower(w.word, lower), Lower(f.searchTerm, lower))
    && (f.languageFilter == AllLanguages || w.originLanguage == f.languageFilter)
    && (f.periodFilter == AllPeriods || w.period == f.periodFilter)
  }

  /** `allWords.filter(...)`: the matching words, in input order. */
  function FilterWords(ws: seq<Word>, f: Filters, lower: char -> char): (r: seq<Word>)
    ensures |r| <= |ws|
    ensures forall i :: 0 <= i < |r| ==> Matches(r[i], f, lower)
  {
    if ws == [] then []
    else
      var w := ws[|ws| - 1];
      FilterWords(ws[..|ws| - 1], f, lower) + (if Matches(w, f, lower) then [w] else [])
  }

  /** Two words compared by their text under `le`. */
  function ByWord(le: (string, string) -> bool): (Word, Word) -> bool
  {
    (a: Word, b: Word) => le(a.word, b.word)
  }

  /** `filteredWords`: the matching words sorted by their text. */
  function FilteredWords(allWords: seq<Word>, f: Filters, lower: char -> char,
                         le: (string, string) -> bool): (r: seq<Word>)
    ensures |r| <= |allWords|
    ensures forall i :: 0 <= i < |r| ==> Matches(r[i], f, lower)
  {
    var r := SortBy(FilterWords(allWords, f, lower), ByWord(le));
    assert forall i :: 0 <= i < |r| ==> r[i] in multiset(FilterWords(allWords, f, lower));
    r
  }

  /** Filtering keeps each matching word as often as the input has it and drops the others. */
  lemma {:induction false} FilterWordsCounts(ws: seq<Word>, f: Filters, lower: char -> char, w: Word)
    ensures multiset(FilterWords(ws, f, lower))[w] == if Matches(w, f, lower) then multiset(ws)[w] else 0
  {
    if ws != [] {
      var init := ws[..|ws| - 1];
      assert ws == init + [ws[|ws| - 1]];
      FilterWordsCounts(init, f, lower, w);
    }
  }

  /** The list holds exactly the matching words of the input, each as often as the input has it. */
  lemma FilteredWordsComplete(allWords: seq<Word>, f: Filters, lower: char -> char,
                              le: (string, string) -> bool, w: Word)
    ensures multiset(FilteredWords(allWords, f, lower, le))[w] ==
              if Matches(w, f, lower) then multiset(allWords)[w] else 0
  {
    FilterWordsCounts(allWords, f, lower, w);
  }

  /** The list is in collation order whenever the collation compares any two texts. */
  lemma FilteredWordsSorted(allWords: seq<Word>, f: Filters, lower: char -> char, le: (string, string) -> bool)
    requires Total(le)
    ensures Sorted(FilteredWords(allWords, f, lower, le), ByWord(le))
  {
    assert Total(ByWord(le)) by {
      forall a: Word, b: Word ensures ByWord(le)(a, b) || ByWord(le)(b, a) {
        assert le(a.word, b.word) || le(b.word, a.word);
      }
    }
    SortBySorted(FilterWords(allWords, f, lower), ByWord(le));
  }

  lemma ContainsEmpty(s: string)
    ensures Contains(s, [])
  {
    assert OccursAt(s, [], 0);
  }

  /** The two sentinels switch their tests off, leaving the search alone. */
  lemma SentinelsMatchAll(w: Word, searchTerm: string, lower: char -> char)
    ensures Matches(w, Filters(searchTerm, AllLanguages, AllPeriods), lower) <==>
              Contains(Lower(w.word, lower), Lower(searchTerm, lower))
  {
  }

  /** An empty search and both sentinels, the state the sidebar mounts in, list every word. */
  lemma {:induction false} InitialFiltersKeepAll(ws: seq<Word>, lower: char -> char)
    ensures FilterWords(ws, InitialFilters, lower) == ws
  {
    if ws != [] {
      var init := ws[..|ws| - 1];
      InitialFiltersKeepAll(init, lower);
      ContainsEmpty(Lower(ws[|ws| - 1].word, lower));
      assert Lower([], lower) == [];
      assert ws == init + [ws[|ws| - 1]];
    }
  }

  /** `availableLanguages`: the sentinel, then the languages of the words
      sorted by code unit with repeats removed (a `Set` keeps first occurrences). */
  function AvailableLanguages(allWords: seq<Word>): (r: seq<string>)
    ensures |r| >= 1 && r[0] == AllLanguages
  {
    [AllLanguages] + Dedup(SortBy(LangsOf(allWords), CodeUnitLe))
  }

  /** After the sentinel, the options are exactly the languages of the words,
      each once, in strictly increasing code-unit order. */
  lemma AvailableLanguagesOptions(allWords: seq<Word>)
    ensures var opts := AvailableLanguages(allWords)[1..];
            && (forall i :: 0 <= i < |opts| ==> opts[i] in LangsOf(allWords))
            && (forall i :: 0 <= i < |allWords| ==> allWords[i].originLanguage in opts)
            && Distinct(opts)
            && SortedPairwise(opts, CodeUnitLe)
  {
    var langs := LangsOf(allWords);
    var sorted := SortBy(langs, CodeUnitLe);
    var opts := Dedup(sorted);
    assert AvailableLanguages(allWords)[1..] == opts;
    DedupSameElements(sorted);
    forall i | 0 <= i < |opts| ensures opts[i] in langs {
      assert opts[i] in multiset(sorted);
    }
    forall i | 0 <= i < |allWords| ensures allWords[i].originLanguage in opts {
      assert langs[i] == allWords[i].originLanguage;
      assert langs[i] in multiset(sorted);
    }
    CodeUnitOrder();
    SortBySorted(langs, CodeUnitLe);
    SortedIsPairwise(sorted, CodeUnitLe);
    DedupKeepsPairwise(sorted, CodeUnitLe);
  }

  /** The period options: the sentinel first, then the three periods, all different. */
  lemma AvailablePeriodsOptions()
    ensures |AvailablePeriods| == 4 && AvailablePeriods[0] == AllPeriods && Distinct(AvailablePeriods)
  {
  }
}
