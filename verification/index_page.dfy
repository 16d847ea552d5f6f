/**
 * The map page of pages/index.tsx: the effect that fills the map once the
 * language table is loaded, and the handler that brings a selected word onto
 * the map.
 *
 * The effect groups the words by their exact `originLanguage` in a JavaScript
 * Map, modelled as a Dafny map plus the list of its keys in insertion order
 * (the order Map.forEach visits them). Each group is shuffled, its first two
 * words are kept, and each kept word gets a uniform point in its language's
 * bounding box. The shuffle is the parameter `shuffle`, of which only "some
 * permutation" is assumed; the coordinate draws read the stream `rand`, the
 * i-th placed word using rand(2i) and rand(2i + 1).
 */
module IndexPage {
  import opened Types
  import opened Collections
  import GeoUtils

  /** How many words of each language the initial population places. */
  const PerLanguage: nat := 2

  function Min(a: int, b: int): int
  {
    if a <= b then a else b
  }

  /** The words whose origin language is exactly `lang`, in input order. */
  function Group(ws: seq<Word>, lang: string): (g: seq<Word>)
    ensures forall i :: 0 <= i < |g| ==> g[i].originLanguage == lang
    ensures |g| == Occurrences(LangsOf(ws), lang)
  {
    if ws == [] then []
    else
      var init, w := ws[..|ws| - 1], ws[|ws| - 1];
      assert ws == init + [w];
      LangsOfSnoc(init, w);
      Group(init, lang) + (if w.originLanguage == lang then [w] else [])
  }

  lemma GroupSnoc(ws: seq<Word>, w: Word, lang: string)
    ensures Group(ws + [w], lang) == Group(ws, lang) + (if w.originLanguage == lang then [w] else [])
  {
    assert (ws + [w])[..|ws|] == ws;
  }

  /** A group holds input words only, and every input word of its language. */
  lemma {:induction false} GroupMembers(ws: seq<Word>, lang: string)
    ensures multiset(Group(ws, lang)) <= multiset(ws)
    ensures forall i :: 0 <= i < |ws| && ws[i].originLanguage == lang ==> ws[i] in Group(ws, lang)
  {
    if ws != [] {
      var init, w := ws[..|ws| - 1], ws[|ws| - 1];
      assert ws == init + [w];
      GroupMembers(init, lang);
      GroupSnoc(init, w, lang);
      forall i | 0 <= i < |ws| && ws[i].originLanguage == lang ensures ws[i] in Group(ws, lang) {
        if i < |init| {
          assert ws[i] == init[i];
          assert ws[i] in Group(init, lang);
        }
      }
    }
  }

  /** The distinct origin languages, in order of first occurrence: the keys of
      the grouping Map in the order it iterates them. */
  function Languages(ws: seq<Word>): seq<string>
  {
    Dedup(LangsOf(ws))
  }

  /** The number of words in the groups of `keys`, added up. */
  function GroupedCount(ws: seq<Word>, keys: seq<string>): nat
  {
    if keys == [] then 0
    else GroupedCount(ws, keys[..|keys| - 1]) + |Group(ws, keys[|keys| - 1])|
  }

  lemma {:induction false} GroupedCountIsSum(ws: seq<Word>, keys: seq<string>)
    ensures GroupedCount(ws, keys) == SumOccurrences(keys, LangsOf(ws))
  {
    if keys != [] {
      GroupedCountIsSum(ws, keys[..|keys| - 1]);
    }
  }

  /** Grouping is a partition: the groups of the distinct languages hold
      exactly as many words as the input. */
  lemma GroupsPartitionWords(ws: seq<Word>)
    ensures GroupedCount(ws, Languages(ws)) == |ws|
  {
    GroupedCountIsSum(ws, Languages(ws));
    SumOccurrencesOfDedup(LangsOf(ws));
  }

  /** Every word lies in the group of its own language and in no other. */
  lemma WordInOwnGroupOnly(ws: seq<Word>, i: nat, lang: string)
    requires i < |ws|
    ensures ws[i] in Group(ws, lang) <==> lang == ws[i].originLanguage
    ensures ws[i].originLanguage in Languages(ws)
  {
    assert LangsOf(ws)[i] == ws[i].originLanguage;
    DedupSameElements(LangsOf(ws));
    GroupMembers(ws, lang);
    if ws[i] in Group(ws, lang) {
      var g := Group(ws, lang);
      var j :| 0 <= j < |g| && g[j] == ws[i];
    }
  }

  /** A language that no word has has an empty group. */
  lemma GroupOfAbsentLanguage(ws: seq<Word>, lang: string)
    requires lang !in Languages(ws)
    ensures Group(ws, lang) == []
  {
    DedupSameElements(LangsOf(ws));
  }

  lemma LanguagesSnoc(ws: seq<Word>, w: Word)
    ensures Languages(ws + [w]) ==
              if w.originLanguage in Languages(ws) then Languages(ws) else Languages(ws) + [w.originLanguage]
  {
    LangsOfSnoc(ws, w);
    var s := LangsOf(ws + [w]);
    assert s[..|s| - 1] == LangsOf(ws);
  }

  /** `allLanguages.find(lang => lang.language === name)`. */
  function FindLanguage(langs: seq<Language>, name: string): (r: Option<Language>)
    ensures r.Some? ==> r.value.language == name
  {
    if langs == [] then None
    else if langs[0].language == name then Some(langs[0])
    else FindLanguage(langs[1..], name)
  }

  /** The search succeeds exactly when some entry has that name, and returns an entry of the table. */
  lemma {:induction false} FindLanguageFound(langs: seq<Language>, name: string)
    ensures FindLanguage(langs, name).Some? <==> exists i :: 0 <= i < |langs| && langs[i].language == name
    ensures FindLanguage(langs, name).Some? ==> FindLanguage(langs, name).value in langs
  {
    if langs != [] && langs[0].language != name {
      FindLanguageFound(langs[1..], name);
      assert forall i :: 1 <= i < |langs| ==> langs[i] == langs[1..][i - 1];
    }
  }

  /** The search returns the first entry with that name. */
  lemma {:induction false} FindLanguageFirst(langs: seq<Language>, name: string, i: nat)
    requires i < |langs| && langs[i].language == name
    requires forall j :: 0 <= j < i ==> langs[j].language != name
    ensures FindLanguage(langs, name) == Some(langs[i])
  {
    if i > 0 {
      FindLanguageFirst(langs[1..], name, i - 1);
    }
  }

  /** The words placed on the map for language `lang`, in map order. */
  function OnMap(entries: seq<WordOnMap>, lang: string): (r: seq<Word>)
    ensures forall i :: 0 <= i < |r| ==> r[i].originLanguage == lang
  {
    if entries == [] then []
    else
      var e := entries[|entries| - 1];
      OnMap(entries[..|entries| - 1], lang) + (if e.word.originLanguage == lang then [e.word] else [])
  }

  lemma OnMapSnoc(entries: seq<WordOnMap>, e: WordOnMap, lang: string)
    ensures OnMap(entries + [e], lang) == OnMap(entries, lang) + (if e.word.originLanguage == lang then [e.word] else [])
  {
    assert (entries + [e])[..|entries|] == entries;
  }

  /** Where the i-th placed word goes: the i-th draw in its language's box. */
  ghost predicate PlacedInOwnBox(entries: seq<WordOnMap>, allLanguages: seq<Language>, rand: nat -> real)
  {
    forall i :: 0 <= i < |entries| ==>
      var l := FindLanguage(allLanguages, entries[i].word.originLanguage);
      l.Some? && l.value.boundingBox.Some? &&
      entries[i].coordinates == GeoUtils.BoxPoint(l.value.boundingBox.value, rand(2 * i), rand(2 * i + 1))
  }

  /** Languages of the table whose box can be sampled. */
  ghost predicate AllBoxed(allLanguages: seq<Language>)
  {
    forall l :: l in allLanguages ==> l.boundingBox.Some?
  }

  ghost predicate IsShuffle(shuffle: seq<Word> -> seq<Word>)
  {
    forall g :: multiset(shuffle(g)) == multiset(g)
  }

  /** What the initial population promises: every entry is an input word of a
      resolved language placed by its own draw; each language present in the
      table contributes min(2, group size) distinct members of its group, and
      every other language none. */
  ghost predicate Population(entries: seq<WordOnMap>, allWords: seq<Word>,
                             allLanguages: seq<Language>, rand: nat -> real)
  {
    && PlacedInOwnBox(entries, allLanguages, rand)
    && (forall i :: 0 <= i < |entries| ==> entries[i].word in allWords)
    && (forall k :: |OnMap(entries, k)| ==
          if FindLanguage(allLanguages, k).Some? then Min(PerLanguage, |Group(allWords, k)|) else 0)
    && (forall k :: multiset(OnMap(entries, k)) <= multiset(Group(allWords, k)))
  }

  /** `groups` and `keys` are the grouping Map of `ws`. */
  ghost predicate GroupingOf(ws: seq<Word>, groups: map<string, seq<Word>>, keys: seq<string>)
  {
    && keys == Languages(ws)
    && (forall k :: k in groups <==> k in keys)
    && (forall k :: k in groups ==> groups[k] == Group(ws, k))
  }

  /** The Map after one word: its language's list is created when missing, then the word is pushed. */
  function PushToGroup(groups: map<string, seq<Word>>, w: Word): (r: map<string, seq<Word>>)
    ensures r.Keys == groups.Keys + {w.originLanguage}
  {
    var g := if w.originLanguage in groups then groups else groups[w.originLanguage := []];
    g[w.originLanguage := g[w.originLanguage] + [w]]
  }

  /** Pushing the next word keeps every list of the Map equal to its language's group. */
  lemma PushToGroupStep(ws: seq<Word>, w: Word, groups: map<string, seq<Word>>)
    requires forall k :: k in groups ==> groups[k] == Group(ws, k)
    requires w.originLanguage !in groups ==> Group(ws, w.originLanguage) == []
    ensures forall k :: k in PushToGroup(groups, w) ==> PushToGroup(groups, w)[k] == Group(ws + [w], k)
  {
    var groups' := PushToGroup(groups, w);
    forall k | k in groups' ensures groups'[k] == Group(ws + [w], k) {
      GroupSnoc(ws, w, k);
    }
  }

  /** One step of the grouping loop appends a language to the keys exactly when the Map lacked it. */
  lemma KeysStep(ws: seq<Word>, w: Word, groups: map<string, seq<Word>>, keys: seq<string>)
    requires keys == Languages(ws) && forall k :: k in groups <==> k in keys
    ensures var keys' := if w.originLanguage in groups then keys else keys + [w.originLanguage];
            && keys' == Languages(ws + [w])
            && forall k :: k in PushToGroup(groups, w) <==> k in keys'
  {
    LanguagesSnoc(ws, w);
  }

  /** One step of the grouping loop keeps the Map equal to the grouping of the words seen. */
  lemma GroupingStep(ws: seq<Word>, w: Word, groups: map<string, seq<Word>>, keys: seq<string>)
    requires GroupingOf(ws, groups, keys)
    ensures GroupingOf(ws + [w], PushToGroup(groups, w),
                       if w.originLanguage in groups then keys else keys + [w.originLanguage])
  {
    KeysStep(ws, w, groups, keys);
    if w.originLanguage !in groups {
      GroupOfAbsentLanguage(ws, w.originLanguage);
    }
    PushToGroupStep(ws, w, groups);
  }

  /** The first forEach of the load effect: the grouping Map, given as its
      entries and its keys in insertion order. */
  method GroupByLanguage(allWords: seq<Word>) returns (groups: map<string, seq<Word>>, keys: seq<string>)
    ensures keys == Languages(allWords)
    ensures forall k :: k in groups <==> k in keys
    ensures forall k :: k in groups ==> groups[k] == Group(allWords, k)
  {
    groups, keys := map[], [];
    var n := 0;
    while n < |allWords|
      invariant n <= |allWords|
      invariant GroupingOf(allWords[..n], groups, keys)
    {
      var word := allWords[n];
      assert allWords[..n + 1] == allWords[..n] + [word];
      GroupingStep(allWords[..n], word, groups, keys);
      if word.originLanguage !in groups {
        keys := keys + [word.originLanguage];
      }
      groups := PushToGroup(groups, word);
      n := n + 1;
    }
    assert allWords[..n] == allWords;
  }

  /** How many words each language has on the map after the languages `done` have been visited. */
  ghost predicate CountsUpTo(entries: seq<WordOnMap>, allWords: seq<Word>, allLanguages: seq<Language>,
                             done: seq<string>)
  {
    forall k :: |OnMap(entries, k)| ==
      if k in done && FindLanguage(allLanguages, k).Some? then Min(PerLanguage, |Group(allWords, k)|) else 0
  }

  /** The words of each language on the map are members of its group, without repeats beyond it. */
  ghost predicate WithinGroups(entries: seq<WordOnMap>, allWords: seq<Word>)
  {
    forall k :: multiset(OnMap(entries, k)) <= multiset(Group(allWords, k))
  }

  /** The entries added for one language, as the inner forEach leaves them. */
  ghost predicate AddedFor(before: seq<WordOnMap>, after: seq<WordOnMap>, lang: string, selected: seq<Word>)
  {
    forall k :: OnMap(after, k) == OnMap(before, k) + (if k == lang then selected else [])
  }

  lemma AddedForSnoc(before: seq<WordOnMap>, after: seq<WordOnMap>, lang: string, selected: seq<Word>,
                     e: WordOnMap)
    requires AddedFor(before, after, lang, selected) && e.word.originLanguage == lang
    ensures AddedFor(before, after + [e], lang, selected + [e.word])
  {
    forall k ensures OnMap(after + [e], k) == OnMap(before, k) + (if k == lang then selected + [e.word] else []) {
      OnMapSnoc(after, e, k);
    }
  }

  /** The inner forEach of the load effect: pushes each selected word of one
      language with a fresh draw in that language's box. */
  method PushSelected(initialWords: seq<WordOnMap>, selectedWords: seq<Word>, lang: string,
                      allLanguages: seq<Language>, rand: nat -> real)
    returns (result: seq<WordOnMap>)
    requires FindLanguage(allLanguages, lang).Some? && FindLanguage(allLanguages, lang).value.boundingBox.Some?
    requires forall i :: 0 <= i < |selectedWords| ==> selectedWords[i].originLanguage == lang
    requires PlacedInOwnBox(initialWords, allLanguages, rand)
    ensures PlacedInOwnBox(result, allLanguages, rand)
    ensures AddedFor(initialWords, result, lang, selectedWords)
    ensures |result| == |initialWords| + |selectedWords| && result[..|initialWords|] == initialWords
    ensures forall i :: 0 <= i < |selectedWords| ==> result[|initialWords| + i].word == selectedWords[i]
  {
    var box := FindLanguage(allLanguages, lang).value.boundingBox.value;
    result := initialWords;
    var m := 0;
    while m < |selectedWords|
      invariant m <= |selectedWords|
      invariant PlacedInOwnBox(result, allLanguages, rand)
      invariant AddedFor(initialWords, result, lang, selectedWords[..m])
      invariant |result| == |initialWords| + m && result[..|initialWords|] == initialWords
      invariant forall i :: 0 <= i < m ==> result[|initialWords| + i].word == selectedWords[i]
    {
      var word := selectedWords[m];
      var entry := WordOnMap(word, GeoUtils.BoxPoint(box, rand(2 * |result|), rand(2 * |result| + 1)));
      assert selectedWords[..m + 1] == selectedWords[..m] + [word];
      AddedForSnoc(initialWords, result, lang, selectedWords[..m], entry);
      result := result + [entry];
      m := m + 1;
    }
    assert selectedWords[..m] == selectedWords;
  }

  /** Visiting a language that the table resolves adds min(2, group size) words to it. */
  lemma CountsStep(before: seq<WordOnMap>, after: seq<WordOnMap>, selected: seq<Word>,
                   allWords: seq<Word>, allLanguages: seq<Language>, done: seq<string>, lang: string)
    requires CountsUpTo(before, allWords, allLanguages, done)
    requires lang !in done && FindLanguage(allLanguages, lang).Some?
    requires |selected| == Min(PerLanguage, |Group(allWords, lang)|)
    requires AddedFor(before, after, lang, selected)
    ensures CountsUpTo(after, allWords, allLanguages, done + [lang])
  {
    forall k ensures |OnMap(after, k)| ==
        if k in done + [lang] && FindLanguage(allLanguages, k).Some? then Min(PerLanguage, |Group(allWords, k)|) else 0
    {
      assert OnMap(after, k) == OnMap(before, k) + (if k == lang then selected else []);
    }
  }

  /** Adding members of a language's group that it did not have keeps the map within the groups. */
  lemma WithinGroupsStep(before: seq<WordOnMap>, after: seq<WordOnMap>, selected: seq<Word>,
                         allWords: seq<Word>, lang: string)
    requires WithinGroups(before, allWords) && OnMap(before, lang) == []
    requires multiset(selected) <= multiset(Group(allWords, lang))
    requires AddedFor(before, after, lang, selected)
    ensures WithinGroups(after, allWords)
  {
    forall k ensures multiset(OnMap(after, k)) <= multiset(Group(allWords, k)) {
      assert OnMap(after, k) == OnMap(before, k) + (if k == lang then selected else []);
    }
  }

  /** Visiting a language that the table does not resolve changes no count. */
  lemma CountsSkip(entries: seq<WordOnMap>, allWords: seq<Word>, allLanguages: seq<Language>,
                   done: seq<string>, lang: string)
    requires CountsUpTo(entries, allWords, allLanguages, done)
    requires FindLanguage(allLanguages, lang).None?
    ensures CountsUpTo(entries, allWords, allLanguages, done + [lang])
  {
  }

  /** Every entry's word is among the entries of its own language. */
  lemma {:induction false} OnMapHas(entries: seq<WordOnMap>, i: nat)
    requires i < |entries|
    ensures entries[i].word in OnMap(entries, entries[i].word.originLanguage)
  {
    var init := entries[..|entries| - 1];
    if i < |init| {
      OnMapHas(init, i);
      assert init[i] == entries[i];
    }
  }

  /** Once every language of the words has been visited, the population is complete. */
  lemma PopulationDone(entries: seq<WordOnMap>, allWords: seq<Word>, allLanguages: seq<Language>,
                       rand: nat -> real)
    requires PlacedInOwnBox(entries, allLanguages, rand)
    requires CountsUpTo(entries, allWords, allLanguages, Languages(allWords))
    requires WithinGroups(entries, allWords)
    ensures Population(entries, allWords, allLanguages, rand)
  {
    forall k ensures |OnMap(entries, k)| ==
                       if FindLanguage(allLanguages, k).Some? then Min(PerLanguage, |Group(allWords, k)|) else 0 {
      if k !in Languages(allWords) {
        GroupOfAbsentLanguage(allWords, k);
      }
    }
    forall i | 0 <= i < |entries| ensures entries[i].word in allWords {
      var w := entries[i].word;
      OnMapHas(entries, i);
      assert w in multiset(OnMap(entries, w.originLanguage));
      GroupMembers(allWords, w.originLanguage);
      assert w in multiset(allWords);
    }
  }

  /** `shuffleArray(group).slice(0, 2)`: up to two members of the group, each at most as often as in it. */
  method SelectWords(group: seq<Word>, shuffle: seq<Word> -> seq<Word>) returns (selectedWords: seq<Word>)
    requires IsShuffle(shuffle)
    ensures |selectedWords| == Min(PerLanguage, |group|)
    ensures multiset(selectedWords) <= multiset(group)
  {
    var shuffled := shuffle(group);
    assert |shuffled| == |group| by {
      assert |multiset(shuffled)| == |multiset(group)|;
    }
    selectedWords := shuffled[..Min(PerLanguage, |shuffled|)];
    assert shuffled == selectedWords + shuffled[|selectedWords|..];
  }

  /** The callback of the forEach over the grouping Map: one language's words,
      placed when the table resolves the language and skipped otherwise. */
  method PlaceLanguage(initialWords: seq<WordOnMap>, wordsInGroup: seq<Word>, languageName: string,
                       allWords: seq<Word>, allLanguages: seq<Language>,
                       shuffle: seq<Word> -> seq<Word>, rand: nat -> real, ghost done: seq<string>)
    returns (result: seq<WordOnMap>)
    requires AllBoxed(allLanguages) && IsShuffle(shuffle)
    requires wordsInGroup == Group(allWords, languageName) && languageName !in done
    requires PlacedInOwnBox(initialWords, allLanguages, rand)
    requires CountsUpTo(initialWords, allWords, allLanguages, done)
    requires WithinGroups(initialWords, allWords)
    ensures PlacedInOwnBox(result, allLanguages, rand)
    ensures CountsUpTo(result, allWords, allLanguages, done + [languageName])
    ensures WithinGroups(result, allWords)
    ensures |result| >= |initialWords| && result[..|initialWords|] == initialWords
    ensures FindLanguage(allLanguages, languageName).None? ==> result == initialWords
    ensures FindLanguage(allLanguages, languageName).Some? ==>
              |result| == |initialWords| + Min(PerLanguage, |Group(allWords, languageName)|)
  {
    var languageData := FindLanguage(allLanguages, languageName);
    if languageData.None? {
      CountsSkip(initialWords, allWords, allLanguages, done, languageName);
      return initialWords;
    }
    var selectedWords := SelectWords(wordsInGroup, shuffle);
    forall i | 0 <= i < |selectedWords| ensures selectedWords[i].originLanguage == languageName {
      assert selectedWords[i] in multiset(wordsInGroup);
    }
    FindLanguageFound(allLanguages, languageName);
    result := PushSelected(initialWords, selectedWords, languageName, allLanguages, rand);
    CountsStep(initialWords, result, selectedWords, allWords, allLanguages, done, languageName);
    WithinGroupsStep(initialWords, result, selectedWords, allWords, languageName);
  }

  /** The list the forEach over the Map hands over with a key is that key's group. */
  lemma KeyGroup(allWords: seq<Word>, groups: map<string, seq<Word>>, keys: seq<string>, j: nat)
    requires GroupingOf(allWords, groups, keys) && j < |keys|
    ensures keys[j] in groups && groups[keys[j]] == Group(allWords, keys[j])
  {
  }

  /** A key the forEach visits was not visited before. */
  lemma KeyFresh(keys: seq<string>, j: nat)
    requires Distinct(keys) && j < |keys|
    ensures keys[j] !in keys[..j] && keys[..j + 1] == keys[..j] + [keys[j]]
  {
  }

  /** The body of the load effect: group, shuffle, keep two, place. */
  method BuildInitialWords(allWords: seq<Word>, allLanguages: seq<Language>,
                           shuffle: seq<Word> -> seq<Word>, rand: nat -> real)
    returns (initialWords: seq<WordOnMap>)
    requires AllBoxed(allLanguages)
    requires IsShuffle(shuffle)
    ensures Population(initialWords, allWords, allLanguages, rand)
  {
    var groupedWords, keys := GroupByLanguage(allWords);
    assert GroupingOf(allWords, groupedWords, keys) && Distinct(keys);
    initialWords := [];
    var j := 0;
    while j < |keys|
      invariant j <= |keys|
      invariant PlacedInOwnBox(initialWords, allLanguages, rand)
      invariant CountsUpTo(initialWords, allWords, allLanguages, keys[..j])
      invariant WithinGroups(initialWords, allWords)
    {
      KeyGroup(allWords, groupedWords, keys, j);
      KeyFresh(keys, j);
      initialWords := PlaceLanguage(initialWords, groupedWords[keys[j]], keys[j], allWords, allLanguages,
                                    shuffle, rand, keys[..j]);
      j := j + 1;
    }
    assert keys[..j] == keys;
    PopulationDone(initialWords, allWords, allLanguages, rand);
  }

  /** Every marker of the initial population lies in its language's box, when the
      boxes are proper and the draws lie in [0, 1). */
  lemma PopulationInBox(entries: seq<WordOnMap>, allWords: seq<Word>, allLanguages: seq<Language>,
                        rand: nat -> real, i: nat)
    requires Population(entries, allWords, allLanguages, rand) && UnitStream(rand)
    requires forall l :: l in allLanguages && l.boundingBox.Some? ==> ProperBox(l.boundingBox.value)
    requires i < |entries|
    ensures FindLanguage(allLanguages, entries[i].word.originLanguage).Some?
    ensures InBox(entries[i].coordinates,
                  FindLanguage(allLanguages, entries[i].word.originLanguage).value.boundingBox.value)
  {
    var l := FindLanguage(allLanguages, entries[i].word.originLanguage);
    FindLanguageFound(allLanguages, entries[i].word.originLanguage);
    GeoUtils.BoxPointInBox(l.value.boundingBox.value, rand(2 * i), rand(2 * i + 1));
  }

  /** The initial population places at most two words of any language, and none of a
      language the table does not resolve. */
  lemma PopulationCaps(entries: seq<WordOnMap>, allWords: seq<Word>, allLanguages: seq<Language>,
                       rand: nat -> real, lang: string)
    requires Population(entries, allWords, allLanguages, rand)
    ensures |OnMap(entries, lang)| <= PerLanguage
    ensures FindLanguage(allLanguages, lang).None? ==> OnMap(entries, lang) == []
    ensures forall i :: 0 <= i < |entries| ==> FindLanguage(allLanguages, entries[i].word.originLanguage).Some?
  {
  }

  // ---------------------------------------------------------------------
  // Selecting a word from the sidebar.

  /** Where a marker click opened the popup, in screen pixels. */
  datatype Position = Position(x: real, y: real)

  datatype PopupData = PopupData(word: Word, position: Position)

  /** `wordsOnMap.find(w => w.id === id)`: the first entry with that id. */
  function FindById(entries: seq<WordOnMap>, id: int): (r: Option<WordOnMap>)
    ensures r.None? <==> forall i :: 0 <= i < |entries| ==> entries[i].word.id != id
    ensures r.Some? ==> r.value.word.id == id
  {
    if entries == [] then None
    else
      var p := FindById(entries[..|entries| - 1], id);
      var e := entries[|entries| - 1];
      if p.Some? then p else if e.word.id == id then Some(e) else None
  }

  /** The search returns the earliest entry with the id. */
  lemma {:induction false} FindByIdFirst(entries: seq<WordOnMap>, id: int, i: nat)
    requires i < |entries| && entries[i].word.id == id
    requires forall j :: 0 <= j < i ==> entries[j].word.id != id
    ensures FindById(entries, id) == Some(entries[i])
  {
    var init := entries[..|entries| - 1];
    if i < |init| {
      FindByIdFirst(init, id, i);
    } else {
      assert forall j :: 0 <= j < |init| ==> init[j] == entries[j];
    }
  }

  lemma FindByIdSnoc(entries: seq<WordOnMap>, e: WordOnMap, id: int)
    ensures FindById(entries + [e], id) ==
              if FindById(entries, id).Some? then FindById(entries, id)
              else if e.word.id == id then Some(e) else None
  {
    assert (entries + [e])[..|entries|] == entries;
  }

  /** What `handleWordSelect` decides to do. */
  datatype Selection =
    | Ignore                         // unresolved language or no bounding box: nothing happens
    | FlyToExisting(target: Point)   // the word is already on the map
    | Place(entry: WordOnMap)        // a new marker at a fresh draw in the box

  /** The decision of `handleWordSelect`, given the two random numbers its draw would use. */
  function Decide(allLanguages: seq<Language>, entries: seq<WordOnMap>, selected: Word,
                  rLat: real, rLng: real): (s: Selection)
    ensures s.Ignore? <==> FindLanguage(allLanguages, selected.originLanguage).None? ||
                           FindLanguage(allLanguages, selected.originLanguage).value.boundingBox.None?
    ensures s.FlyToExisting? ==> FindById(entries, selected.id).Some? &&
                                 s.target == FindById(entries, selected.id).value.coordinates
    ensures s.Place? ==> FindById(entries, selected.id).None? && s.entry.word == selected &&
                         s.entry.coordinates == GeoUtils.BoxPoint(
                           FindLanguage(allLanguages, selected.originLanguage).value.boundingBox.value, rLat, rLng)
  {
    var languageData := FindLanguage(allLanguages, selected.originLanguage);
    if languageData.None? || languageData.value.boundingBox.None? then Ignore
    else
      var existing := FindById(entries, selected.id);
      if existing.Some? then FlyToExisting(existing.value.coordinates)
      else Place(WordOnMap(selected, GeoUtils.BoxPoint(languageData.value.boundingBox.value, rLat, rLng)))
  }

  /** The marker list after the decision: the functional update `[...prevWords, newWordOnMap]`. */
  function Apply(entries: seq<WordOnMap>, s: Selection): (r: seq<WordOnMap>)
    ensures s.Place? ==> |r| == |entries| + 1 && r[..|entries|] == entries && r[|entries|] == s.entry
    ensures !s.Place? ==> r == entries
  {
    if s.Place? then entries + [s.entry] else entries
  }

  /** No two markers carry the same word id. */
  predicate UniqueIds(entries: seq<WordOnMap>)
  {
    forall i, j :: 0 <= i < j < |entries| ==> entries[i].word.id != entries[j].word.id
  }

  /** After a selection of a resolved word, a marker with its id is on the map. */
  lemma SelectedIsOnMap(allLanguages: seq<Language>, entries: seq<WordOnMap>, selected: Word, rLat: real, rLng: real)
    requires !Decide(allLanguages, entries, selected, rLat, rLng).Ignore?
    ensures FindById(Apply(entries, Decide(allLanguages, entries, selected, rLat, rLng)), selected.id).Some?
  {
    var s := Decide(allLanguages, entries, selected, rLat, rLng);
    if s.Place? {
      FindByIdSnoc(entries, s.entry, selected.id);
    }
  }

  /** Selecting the same word twice places it once: the second selection only flies to it. */
  lemma SelectTwiceIsIdempotent(allLanguages: seq<Language>, entries: seq<WordOnMap>, selected: Word,
                                rLat: real, rLng: real, rLat': real, rLng': real)
    ensures var once := Apply(entries, Decide(allLanguages, entries, selected, rLat, rLng));
            Apply(once, Decide(allLanguages, once, selected, rLat', rLng')) == once
  {
    var s := Decide(allLanguages, entries, selected, rLat, rLng);
    if !s.Ignore? {
      SelectedIsOnMap(allLanguages, entries, selected, rLat, rLng);
    }
  }

  /** A selection never gives two markers the same id. */
  lemma SelectKeepsIdsUnique(allLanguages: seq<Language>, entries: seq<WordOnMap>, selected: Word,
                             rLat: real, rLng: real)
    requires UniqueIds(entries)
    ensures UniqueIds(Apply(entries, Decide(allLanguages, entries, selected, rLat, rLng)))
  {
    var s := Decide(allLanguages, entries, selected, rLat, rLng);
    if s.Place? {
      var r := entries + [s.entry];
      forall i, j | 0 <= i < j < |r| ensures r[i].word.id != r[j].word.id {
        if j == |entries| {
          assert r[i] == entries[i];
        } else {
          assert r[i] == entries[i] && r[j] == entries[j];
        }
      }
    }
  }

  /** A new marker lies in its language's bounding box. */
  lemma PlacedInBox(allLanguages: seq<Language>, entries: seq<WordOnMap>, selected: Word, rLat: real, rLng: real)
    requires 0.0 <= rLat < 1.0 && 0.0 <= rLng < 1.0
    requires Decide(allLanguages, entries, selected, rLat, rLng).Place?
    requires ProperBox(FindLanguage(allLanguages, selected.originLanguage).value.boundingBox.value)
    ensures InBox(Decide(allLanguages, entries, selected, rLat, rLng).entry.coordinates,
                  FindLanguage(allLanguages, selected.originLanguage).value.boundingBox.value)
  {
    GeoUtils.BoxPointInBox(FindLanguage(allLanguages, selected.originLanguage).value.boundingBox.value, rLat, rLng);
  }

  /** The state of the map page. */
  class Home {
    const allWords: seq<Word>
    const allLanguages: seq<Language>
    var wordsOnMap: seq<WordOnMap>
    var detailPanelWord: Option<Word>
    var mapFlyToTarget: Option<Point>
    var activePopupData: Option<PopupData>

    constructor(allWords: seq<Word>, allLanguages: seq<Language>)
      ensures this.allWords == allWords && this.allLanguages == allLanguages
      ensures wordsOnMap == [] && detailPanelWord == None
      ensures mapFlyToTarget == None && activePopupData == None
    {
      this.allWords := allWords;
      this.allLanguages := allLanguages;
      wordsOnMap := [];
      detailPanelWord := None;
      mapFlyToTarget := None;
      activePopupData := None;
    }

    /** The load effect: populates the map when the language table is non-empty. */
    method LoadEffect(shuffle: seq<Word> -> seq<Word>, rand: nat -> real)
      requires AllBoxed(allLanguages) && IsShuffle(shuffle)
      modifies this
      ensures |allLanguages| > 0 ==> Population(wordsOnMap, allWords, allLanguages, rand)
      ensures |allLanguages| == 0 ==> wordsOnMap == old(wordsOnMap)
      ensures detailPanelWord == old(detailPanelWord) && mapFlyToTarget == old(mapFlyToTarget)
      ensures activePopupData == old(activePopupData)
    {
      if |allLanguages| > 0 {
        var initialWords := BuildInitialWords(allWords, allLanguages, shuffle, rand);
        wordsOnMap := initialWords;
      }
    }

    /** `handleWordSelect`, with the two random numbers of its draw as parameters. */
    method HandleWordSelect(selectedWord: Word, rLat: real, rLng: real)
      modifies this
      ensures var s := Decide(allLanguages, old(wordsOnMap), selectedWord, rLat, rLng);
              if s.Ignore? then
                && wordsOnMap == old(wordsOnMap) && detailPanelWord == old(detailPanelWord)
                && mapFlyToTarget == old(mapFlyToTarget) && activePopupData == old(activePopupData)
              else
                && wordsOnMap == Apply(old(wordsOnMap), s)
                && detailPanelWord == (if old(detailPanelWord).Some? then Some(selectedWord) else None)
                && mapFlyToTarget == Some(if s.Place? then s.entry.coordinates else s.target)
                && activePopupData == None
    {
      var languageData := FindLanguage(allLanguages, selectedWord.originLanguage);
      if languageData.None? || languageData.value.boundingBox.None? {
        return;
      }
      if detailPanelWord.Some? {
        detailPanelWord := Some(selectedWord);
      }
      var existingWord := FindById(wordsOnMap, selectedWord.id);
      if existingWord.Some? {
        mapFlyToTarget := Some(existingWord.value.coordinates);
      } else {
        var b := languageData.value.boundingBox.value;
        var lat := rLat * (b.maxLat - b.minLat) + b.minLat;
        var lng := rLng * (b.maxLng - b.minLng) + b.minLng;
        var newCoordinates: Point := (lat, lng);
        assert newCoordinates.0 == GeoUtils.BoxPoint(b, rLat, rLng).0;
        assert newCoordinates.1 == GeoUtils.BoxPoint(b, rLat, rLng).1;
        var newWordOnMap := WordOnMap(selectedWord, newCoordinates);
        wordsOnMap := wordsOnMap + [newWordOnMap];
        mapFlyToTarget := Some(newCoordinates);
      }
      activePopupData := None;
    }

    /** `handleMarkerClick`: opens the popup for a marker. */
    method HandleMarkerClick(data: PopupData)
      modifies this
      ensures activePopupData == Some(data)
      ensures wordsOnMap == old(wordsOnMap) && detailPanelWord == old(detailPanelWord)
      ensures mapFlyToTarget == old(mapFlyToTarget)
    {
      activePopupData := Some(data);
    }

    /** `handleClosePopups`: a map click or the popup's close button. */
    method HandleClosePopups()
      modifies this
      ensures activePopupData == None
      ensures wordsOnMap == old(wordsOnMap) && detailPanelWord == old(detailPanelWord)
      ensures mapFlyToTarget == old(mapFlyToTarget)
    {
      activePopupData := None;
    }

    /** The popup's "details" action: opens the detail panel and closes the popup. */
    method ShowDetails(word: Word)
      modifies this
      ensures detailPanelWord == Some(word) && activePopupData == None
      ensures wordsOnMap == old(wordsOnMap) && mapFlyToTarget == old(mapFlyToTarget)
    {
      detailPanelWord := Some(word);
      activePopupData := None;
    }

    /** The detail panel's close action. */
    method CloseDetails()
      modifies this
      ensures detailPanelWord == None
      ensures wordsOnMap == old(wordsOnMap) && mapFlyToTarget == old(mapFlyToTarget)
      ensures activePopupData == old(activePopupData)
    {
      detailPanelWord := None;
    }
  }
}
