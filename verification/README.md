# Etimoloji Haritası — a verified model of the map-population core

Etimoloji Haritası ("etymology map") shows Turkish words on a world map. Each
word has a marker inside the territory of the language it came from. This
project models in Dafny the logic behind that map and proves what it
promises:

- **the territory sampler** (`utils/geoUtils.ts`; module `GeoUtils`). It picks
  a point in a language's bounding box. When the language has a polygon, it
  retries until the point falls inside the polygon's outer ring or 100
  candidates have been drawn.
- **the map page** (`pages/index.tsx`; module `IndexPage`). The load effect
  groups the words by their exact `originLanguage`. For each language the
  language table resolves, it shuffles that group, keeps min(2, group size)
  of its words, and places each kept word in that language's box; groups of
  other languages are skipped unshuffled. `handleWordSelect` either flies to a
  word already on the map or appends one new marker. The popup and detail
  handlers are modelled too.
- **the word list of the left sidebar** (`components/LeftSidebar.tsx`; module
  `LeftSidebar`): the search, language and period filters with their "all"
  options, the collation sort, and the two drop-down option lists.
- **the statistics panel** (`components/StatsPanel.tsx`; module `StatsPanel`):
  the fetch guard, the error path, and the two frequency tables. A missing
  value is counted as 'Bilinmiyor', and the tables are sorted by count,
  largest first.
- **the detail panel** (`components/layout/RightDetailPanel.tsx`; module
  `RightDetailPanel`):
  - the flag lookup table;
  - the filter badges, which toggle between a value and the reset value;
  - the state reset when a new word is selected;
  - the meaning and AI request outcomes;
  - the report and suggestion modal.
- **the news ticker** (`components/features/news/NewsTicker.tsx`; module
  `NewsTicker`): a cyclic headline index and what the component renders.

The shared records (`Word`, `Language`, `WordOnMap`, bounding boxes) live in
`Types`. `Collections` holds three sequence operations the components rely
on: the first-occurrence duplicate removal of a JavaScript `Set` or `Map`,
the stable sort of `Array.prototype.sort`, and its default code-unit order
on strings.

The model replaces the parts it cannot state with explicit inputs:

- **Randomness.** `Math.random` becomes a stream `rand: nat -> real`. In the
  sampler, candidate k reads `rand(2k)` for the latitude and `rand(2k + 1)`
  for the longitude. In the load effect, the i-th placed word reads
  `rand(2i)` and `rand(2i + 1)`. `handleWordSelect` takes its two numbers as
  parameters. Containment in the box holds only when the draws lie in
  [0, 1); that is the predicate `UnitStream`.
- **Point-in-polygon.** The `point-in-polygon` library is the predicate
  parameter `inPolygon`.
- **Shuffle.** The shuffle is a parameter required only to be a permutation.
- **Strings.** `toLowerCase` is a per-character mapping parameter, and
  `localeCompare(_, 'tr')` is a comparison parameter.
- **Services.** The answers of the data store and of the meaning and AI
  services are parameters.

Three facts about the code shape the model:

- languages are joined to words by exact `===` on the name;
- the cap is a hard-coded 2 per language;
- the files modelled have no time-window filter and no cached default
  population.

The detail panel's AI request is awaited with no check on the selected word:
an answer that arrives after another word is selected is shown for that
word (`RightDetailPanel.StaleAiAnswer`).

The detail panel's text constants are kept character for character as the
file reads, mis-decoded letters included. As a result, its reset values
('T√ºm Diller', 'T√ºm D√∂nemler') are not the sidebar's 'Tüm Diller' and
'Tüm Dönemler'.

## Model

| member | source | states |
|---|---|---|
| Collections.Dedup | components/LeftSidebar.tsx:31 | the values of a `Set` built from a list have no repeats and are no more than the list |
| Collections.DedupSameElements | components/LeftSidebar.tsx:31 | the `Set` holds exactly the list's values: none lost, none added |
| Collections.SortBy | components/LeftSidebar.tsx:27 | sorting returns a permutation of its input |
| Collections.SortBySorted | components/LeftSidebar.tsx:27 | sorting under a comparison that relates any two elements yields an ordered list |
| Collections.CodeUnitOrder | components/LeftSidebar.tsx:31 | the default sort order on strings (by character code) is total and transitive |
| Collections.DedupKeepsPairwise | components/LeftSidebar.tsx:31 | dropping repeats from a sorted list keeps it sorted |
| GeoUtils.BoxPointInBox | utils/geoUtils.ts:12-16 | `Math.random() * (max - min) + min` on both axes lies in the box (upper bounds excluded) when the draws lie in [0, 1); the page's own sampler at pages/index.tsx:24-29 is the same formula in the same [lat, lng] order, and the page's markers are placed by this same function |
| GeoUtils.Accepted | utils/geoUtils.ts:26-35 | the loop stops at the first candidate inside the ring, or at the 100th; every candidate before it is outside |
| GeoUtils.AcceptedAt | utils/geoUtils.ts:26-35 | the loop stops at a candidate exactly when all earlier ones missed and it hit or was the 100th |
| GeoUtils.RandomCoordinates | utils/geoUtils.ts:7-38 | the do-while sampler returns the accepted candidate swapped to [lat, lng] and draws exactly as many candidates as `Sample` and `Draws` say |
| GeoUtils.SampleWithoutBox | utils/geoUtils.ts:11-19 | without a bounding box the result is exactly [39.9334, 32.8597] and nothing is drawn |
| GeoUtils.SampleBoxOnly | utils/geoUtils.ts:11-17 | with a box and no (or an empty) polygon there is exactly one draw, and it lies in the box |
| GeoUtils.SampleDrawsBounded | utils/geoUtils.ts:26-35 | in polygon mode at least 1 and at most 100 candidates are drawn |
| GeoUtils.SampleFirstHit | utils/geoUtils.ts:26-37 | the first candidate inside the outer ring is returned, swapped to [lat, lng], and no later one is drawn |
| GeoUtils.SampleExhausted | utils/geoUtils.ts:35-37 | when no candidate is inside, the 100th is returned and all 100 were drawn |
| GeoUtils.CandidateInBox | utils/geoUtils.ts:27-31 | every candidate, swapped back to [lat, lng], lies in the box |
| GeoUtils.SampleInBox | utils/geoUtils.ts:11-37 | in every mode with a box, the returned point lies in the box |
| GeoUtils.SampleUsesOuterRingOnly | utils/geoUtils.ts:33 | rings after the first never change the result or the number of draws |
| IndexPage.Group | pages/index.tsx:40-46 | a group holds only words of its language, as many as the input has of that language |
| IndexPage.GroupMembers | pages/index.tsx:40-46 | a group holds input words only, and every input word of its language |
| IndexPage.GroupsPartitionWords | pages/index.tsx:40-46 | the groups of the distinct languages together hold exactly as many words as the input |
| IndexPage.WordInOwnGroupOnly | pages/index.tsx:41-45 | each word is in the group of its own language and no other, and that language is a key of the Map |
| IndexPage.GroupOfAbsentLanguage | pages/index.tsx:41-45 | a language no word has gets no list |
| IndexPage.FindLanguage | pages/index.tsx:48 | a found entry has exactly the searched name |
| IndexPage.FindLanguageFound | pages/index.tsx:48 | the search succeeds exactly when the table has an entry of that name, and returns a table entry |
| IndexPage.FindLanguageFirst | pages/index.tsx:48 | the search returns the first entry with that name |
| IndexPage.PushToGroup | pages/index.tsx:42-45 | after `set` (when missing) and `push`, the Map's keys are the old ones plus the word's language |
| IndexPage.KeysStep | pages/index.tsx:42-44 | one word appends its language to the Map's keys exactly when the Map lacked it, keeping the keys the distinct languages in first-seen order |
| IndexPage.GroupingStep | pages/index.tsx:41-46 | one word of the forEach keeps the Map and its key order equal to the grouping of the words seen |
| IndexPage.GroupByLanguage | pages/index.tsx:40-46 | the Map's keys are the distinct languages in first-seen order, and each list is that language's words in input order |
| IndexPage.SelectWords | pages/index.tsx:50-51 | the shuffled slice holds min(2, group size) words, each a distinct member of the group |
| IndexPage.PushSelected | pages/index.tsx:52-57 | each selected word is appended, in order, with the next draw in its language's box; earlier entries are untouched |
| IndexPage.PlaceLanguage | pages/index.tsx:47-58 | the markers already placed stay as they are and new ones are only appended; an unresolved language adds nothing; a resolved one adds min(2, group size) members of its group, each placed by its own draw |
| IndexPage.BuildInitialWords | pages/index.tsx:39-59 | the population: every entry is an input word of a resolved language placed by its own draw, each resolved language contributes min(2, group size) distinct group members, and every other language none |
| IndexPage.PopulationDone | pages/index.tsx:47-58 | once every key of the Map is visited, the per-language counts hold for every language |
| IndexPage.PopulationInBox | pages/index.tsx:53-56 | every initial marker lies in its language's bounding box when boxes are proper and draws lie in [0, 1) |
| IndexPage.PopulationCaps | pages/index.tsx:48-51 | at most two markers per language, none for an unresolved language, and every marker's language resolves |
| IndexPage.FindById | pages/index.tsx:71 | the search fails exactly when no entry has the id; a found entry has the id |
| IndexPage.FindByIdFirst | pages/index.tsx:71 | the search returns the earliest entry with the id |
| IndexPage.Decide | pages/index.tsx:63-79 | nothing happens exactly when the language is unresolved or has no box; an id already on the map flies to its coordinates; otherwise a new entry for the word at a draw in the box |
| IndexPage.Apply | pages/index.tsx:77 | placing appends exactly one entry and keeps all earlier ones in place; otherwise the list is unchanged |
| IndexPage.SelectedIsOnMap | pages/index.tsx:71-78 | after a selection of a resolved word, a marker with its id is on the map |
| IndexPage.SelectTwiceIsIdempotent | pages/index.tsx:71-78 | selecting the same word again never adds a second marker, whatever the draws |
| IndexPage.SelectKeepsIdsUnique | pages/index.tsx:71-77 | selections never give two markers the same id |
| IndexPage.PlacedInBox | pages/index.tsx:75-76 | a new marker lies in its language's bounding box |
| IndexPage.Home.constructor | pages/index.tsx:31-35 | the page mounts with no markers, no detail word, no fly-to target and no popup |
| IndexPage.Home.LoadEffect | pages/index.tsx:37-61 | with a non-empty language table the markers become the population; otherwise nothing changes; the other state is untouched |
| IndexPage.Home.HandleWordSelect | pages/index.tsx:63-81 | an unresolved word changes nothing; otherwise the markers follow the decision, the fly-to target is the existing or new coordinates, an open detail panel switches to the word, and the popup closes |
| IndexPage.Home.HandleMarkerClick | pages/index.tsx:83-85 | the popup opens with the clicked data, nothing else changes |
| IndexPage.Home.HandleClosePopups | pages/index.tsx:87-89 | the popup closes, nothing else changes |
| IndexPage.Home.ShowDetails | pages/index.tsx:115-118 | the detail panel shows the word and the popup closes |
| IndexPage.Home.CloseDetails | pages/index.tsx:125 | the detail panel closes, nothing else changes |
| LeftSidebar.FilterWords | components/LeftSidebar.tsx:20-26 | the filtered list is no longer than the input and every listed word matches all three filters |
| LeftSidebar.FilterWordsCounts | components/LeftSidebar.tsx:20-26 | filtering keeps each matching word as often as the input has it and drops every other |
| LeftSidebar.FilteredWords | components/LeftSidebar.tsx:19-28 | every listed word matches the search, language and period filters |
| LeftSidebar.FilteredWordsComplete | components/LeftSidebar.tsx:19-28 | the list holds exactly the matching words of the input, none dropped or invented |
| LeftSidebar.FilteredWordsSorted | components/LeftSidebar.tsx:27 | the list is ordered by `word` under the collation |
| LeftSidebar.ContainsEmpty | components/LeftSidebar.tsx:22 | an empty search term occurs in every word |
| LeftSidebar.SentinelsMatchAll | components/LeftSidebar.tsx:23-24 | 'Tüm Diller' and 'Tüm Dönemler' switch off the language and period tests |
| LeftSidebar.InitialFiltersKeepAll | components/LeftSidebar.tsx:13-16 | the sidebar's initial state (empty search, both "all" options) keeps every word |
| LeftSidebar.AvailableLanguages | components/LeftSidebar.tsx:31 | the language options start with 'Tüm Diller' |
| LeftSidebar.AvailableLanguagesOptions | components/LeftSidebar.tsx:31 | after 'Tüm Diller' come exactly the words' languages, each once, in strictly increasing code order |
| LeftSidebar.AvailablePeriodsOptions | components/LeftSidebar.tsx:32 | the period options are four distinct values with 'Tüm Dönemler' first |
| StatsPanel.LabelDefault | components/StatsPanel.tsx:38-41 | a missing or empty language or period is counted as 'Bilinmiyor', any other value as itself |
| StatsPanel.Bump | components/StatsPanel.tsx:39 | incrementing a count adds its label to the record's keys |
| StatsPanel.TallyStep | components/StatsPanel.tsx:37-43 | one row keeps each record equal to the counts of the labels seen, keys in first-seen order |
| StatsPanel.CountRows | components/StatsPanel.tsx:37-43 | after the forEach each record maps every label present to its number of rows, and only those |
| StatsPanel.EntriesOf | components/StatsPanel.tsx:45-46 | one entry per key of the record |
| StatsPanel.EntriesOfTally | components/StatsPanel.tsx:45-51 | the entries, mapped and sorted, are the table of the labels: one bar per label with its count, sorted by count |
| StatsPanel.StatsSum | components/StatsPanel.tsx:37-43 | the counts of a table add up to the number of rows |
| StatsPanel.StatsSorted | components/StatsPanel.tsx:47 | each table is sorted by count, non-increasing |
| StatsPanel.StatsCounts | components/StatsPanel.tsx:39 | each bar's count is the number of rows with its label, and its label occurs in a row |
| StatsPanel.StatsComplete | components/StatsPanel.tsx:37-46 | every label of a row has a bar |
| StatsPanel.StatsLabelsUnique | components/StatsPanel.tsx:45-46 | each label has exactly one bar |
| StatsPanel.Panel.constructor | components/StatsPanel.tsx:11-13 | the panel mounts not loading and with empty tables |
| StatsPanel.Panel.OnOpen | components/StatsPanel.tsx:15-19 | the effect reports that it started a fetch exactly when the panel is open and no language table is loaded, and then loading is on; otherwise nothing changes; the tables are kept |
| StatsPanel.RowsStopRefetch | components/StatsPanel.tsx:15-19 | after a fetch the language table is non-empty exactly when rows came back, so only an empty answer is fetched again on reopening |
| StatsPanel.Panel.StartFetch | components/StatsPanel.tsx:22 | loading starts, the tables are kept |
| StatsPanel.Panel.FinishFetch | components/StatsPanel.tsx:27-56 | on an error or no data the tables are unchanged; with rows both tables become the sorted counts; loading ends in every case |
| RightDetailPanel.FlagUrl | components/layout/RightDetailPanel.tsx:20-29 | null exactly for names outside the table; otherwise the URL is prefix, code and suffix long |
| RightDetailPanel.FlagUrlShape | components/layout/RightDetailPanel.tsx:28 | the URL is `https://flagcdn.com/w40/<code>.png`, and the code read back from it is the table's |
| RightDetailPanel.FlagUrlInjective | components/layout/RightDetailPanel.tsx:20-29 | two names get the same flag exactly when the table gives them the same code |
| RightDetailPanel.FlagTableFacts | components/layout/RightDetailPanel.tsx:21-26 | every code has two letters; Sogdca shares Iran's flag and Rumca Greece's |
| RightDetailPanel.BadgeClick | components/layout/RightDetailPanel.tsx:126-134 | each click makes exactly one trigger, for the badge's own filter type |
| RightDetailPanel.BadgeClickToggles | components/layout/RightDetailPanel.tsx:127-132 | the badge of the active value asks for its filter's reset value; any other badge asks for its own value |
| RightDetailPanel.BadgeClickTwice | components/layout/RightDetailPanel.tsx:126-134 | when the parent applies the first trigger to its filter, the second click on the same badge asks for the value again if it was active before, otherwise for the reset value |
| RightDetailPanel.AiText | components/layout/RightDetailPanel.tsx:113-116 | a failed request shows the connection error, an empty or missing answer the analysis-failed text, any other answer itself |
| RightDetailPanel.Panel.constructor | components/layout/RightDetailPanel.tsx:38-52 | the panel mounts hidden, not minimized, without data, with the suggestion modal closed and not reported |
| RightDetailPanel.Panel.OnWordChange | components/layout/RightDetailPanel.tsx:58-65 | a new word shows the panel expanded and loading, clearing the live data, the reported flag and the AI details; null changes nothing |
| RightDetailPanel.Panel.MeaningSettled | components/layout/RightDetailPanel.tsx:68-85 | while mounted, the answer (or the connection-error text) becomes the live data and loading ends; after unmount nothing changes |
| RightDetailPanel.Panel.StartAiFetch | components/layout/RightDetailPanel.tsx:109-111 | without a word nothing changes; with one the AI request is in flight; the AI text is kept |
| RightDetailPanel.Panel.AiSettled | components/layout/RightDetailPanel.tsx:112-119 | the AI text of the outcome is shown and loading ends in every case, whatever word is selected by then |
| RightDetailPanel.StaleAiAnswer | components/layout/RightDetailPanel.tsx:58-65 | a request in flight when another word is selected: the new word clears the AI text, then the first word's answer is shown for the new word |
| RightDetailPanel.Panel.ToggleMinimize | components/layout/RightDetailPanel.tsx:95 | flips the minimized flag only |
| RightDetailPanel.Panel.HandleClose | components/layout/RightDetailPanel.tsx:96 | hides the panel only |
| RightDetailPanel.Panel.OpenModal | components/layout/RightDetailPanel.tsx:122-123 | opens the modal of the requested kind only |
| RightDetailPanel.Panel.HandleSuccess | components/layout/RightDetailPanel.tsx:124 | the reported flag is set exactly when the modal was a report |
| RightDetailPanel.ReportFlow | components/layout/RightDetailPanel.tsx:122-124 | for a newly selected word, a sent report marks it reported and a sent suggestion does not |
| NewsTicker.Display | components/features/news/NewsTicker.tsx:11-13 | nothing is rendered exactly for an empty list; a headline exactly when the index is in range, and it is the item at the index |
| NewsTicker.Advance | components/features/news/NewsTicker.tsx:16 | the next index stays below the length: one more, or back to 0 after the last |
| NewsTicker.AdvanceTimes | components/features/news/NewsTicker.tsx:16 | after any number of events the index stays below the length |
| NewsTicker.AdvanceTimesIsShift | components/features/news/NewsTicker.tsx:16 | k events move the index k places on, modulo the length |
| NewsTicker.FullCycle | components/features/news/NewsTicker.tsx:16 | after exactly `length` events the index is back where it started, and not earlier |
| NewsTicker.EveryHeadlineShown | components/features/news/NewsTicker.tsx:9-16 | starting from 0, the j-th event shows the j-th headline |
| NewsTicker.ShrunkListThrows | components/features/news/NewsTicker.tsx:127 | nothing clamps the index: a list that shrinks below it makes the render throw |
| NewsTicker.Ticker.constructor | components/features/news/NewsTicker.tsx:9 | the index starts at 0 |
| NewsTicker.Ticker.SetItems | components/features/news/NewsTicker.tsx:8-9 | new props keep the index as it is |
| NewsTicker.Ticker.HandleAnimationEnd | components/features/news/NewsTicker.tsx:15-17 | the index advances cyclically and a headline is still rendered |
| NewsTicker.RunTicker | components/features/news/NewsTicker.tsx:9-17 | with a fixed non-empty list, after n events the index is n modulo the length and that headline is shown |

## Left out

- Data loading is not modelled:
  - `getStaticProps` in `pages/index.tsx`;
  - the data-store client and the hook that loads the words;
  - the API routes and their client wrappers (network, AI and feedback services).

  Their answers enter the model only as parameters.
- Maps, markers, popups, charts, the time slider and the other presentational components are not modelled. They only render.
- `components/RightDetailPanel.tsx` and `components/NewsTicker.tsx` are not part of this model. The first is the older detail panel; the second is a timer-driven copy of the ticker.
- Coordinates are Dafny reals, not IEEE doubles, so there is no rounding. No claim is made about the distribution of the draws.
- IndexPage.BuildInitialWords: the shuffle at `pages/index.tsx:50` draws from `Math.random` too, interleaved with the coordinate draws. The model gives the shuffle its own parameter and reads the coordinates from `rand`. Which stream positions the coordinates use in the real program is therefore not modelled, and neither is the shuffle's distribution (which is biased).
- IndexPage.Home.LoadEffect: requires every language in the table to have a box. That is stronger than the code needs: only the first table entry with the name of some word's language is ever read, and only such an entry without a box would make the code throw. It is justified by the `Language` type of `types.ts`, which makes `boundingBox` mandatory.
- IndexPage.Home.HandleWordSelect: the state updates are applied as one step. React's batching and the functional `setWordsOnMap` update against a newer list are not modelled.
- LeftSidebar.FilteredWords: `toLowerCase` is a per-character mapping. The real mapping can change a string's length (for example 'İ'). `localeCompare(_, 'tr')` is an abstract comparison, so the order is proved only when that comparison relates any two strings.
- Collections.CodeUnitLe compares Dafny characters (Unicode scalar values), while JavaScript compares UTF-16 code units. The two differ only for characters outside the Basic Multilingual Plane.
- StatsPanel.EntriesOf: lists the record's keys in insertion order. `Object.entries` lists integer-like keys first, in ascending order. This changes only the order of bars with equal counts.
- StatsPanel.Bump: the code counts into plain object literals, and the model's `map` has no prototype. Labels that name `Object.prototype` members fall outside StatsSum and StatsCounts in the code. With `'__proto__'` the count assignment is ignored and the bar vanishes. With `'constructor'`, `'toString'` and the like the "count" becomes a string, and the sort comparator yields NaN.
- StatsPanel.Panel.ShouldFetch: states the effect's guard. The effect's dependency list and overlapping fetches are not modelled.
- RightDetailPanel.FlagUrl: names inherited from `Object.prototype` (such as `toString`) look up a function in the source and give a nonsense URL. The model's table has only its twenty entries.
- RightDetailPanel.BadgeClickTwice: no file modelled defines the handler the parent passes as `onFilterTrigger`. The lemma assumes that the handler sets the named filter to the trigger's value before the second click.
- RightDetailPanel.Panel.AiSettled: React drops state updates after unmount, so an AI answer after unmount has no effect. The model has no unmount for this request.
- The detail panel's speech synthesis, hover state, `alert`, abort controller and the 300 ms delay before `onClose` are not modelled.
- NewsTicker.Ticker.HandleAnimationEnd: requires a rendered headline. The handler exists only while the component renders one.
