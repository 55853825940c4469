# LinguaLexis core, modelled in Dafny

This project models the computational core of the LinguaLexis vocabulary trainer. It has four parts:

- **The SM-2 spaced-repetition scheduler** (`src/lib/spacedRepetition.ts`), in module `Scheduler`. It covers:
  - the review update;
  - due-card selection;
  - the in-place priority sort;
  - retention and study statistics;
  - the upcoming-review load;
  - the response-time quality adjustment;
  - the learning-pattern analytics.
- **The vocabulary layer** (`src/lib/vocabulary.ts`).
  - Module `Vocabulary`: the word factory with its defaults, the conjunctive filter, the sorted category list, related-word suggestions and the rank-to-level table.
  - Module `VocabularyCsv`: the header-driven CSV importer and both CSV serialisers.
  - Module `VocabularyAnki`: the Anki export.
  - Module `Statistics`: the aggregate word statistics.
  - Module `WordDatabase`: the `WordDatabaseService` class. It is a Dafny `class` with the word map, the insertion order and the language and category indexes as fields, and methods that update them.
- **The XP and level arithmetic and the achievement check** of the Gamification component (`src/components/Gamification.tsx`), in module `Gamification`.
- **The text handling** of the TextPrompt component (`src/components/TextPrompt.tsx`), in module `TextPrompt`:
  - the double-click word-boundary scan;
  - the trimming of a selection;
  - the vocabulary record built from a dictionary lookup.

Two modules hold the helpers the core relies on:

- `Collections`: order-preserving filter, subsequences, a stable sort by key, counting, and JavaScript's `slice(0, n)`.
- `Text`: per-character lower-casing, ECMAScript `trim`, `includes`, `split` and `join`, `substring`, integer printing, and the code-unit string order used by `Array.prototype.sort`.

Conventions:

- Time is an explicit `now` parameter. Dates are integer millisecond timestamps, and a calendar day is the day number `t / 86400000`.
- Fresh identifiers are a parameter: `freshId`, or `ids`, which maps a line number to an id.
- The serialisations the source delegates to the runtime are fields of an `Encoders` value: `JSON.stringify` of an etymology or of a list of sentences, number printing, and `toISOString`.
- Ease factors, qualities and frequencies are `real`. Intervals, repetitions, ranks, XP and progress are `int`.

Where the specification and the code disagree, the model follows the code:

- The suggested daily review count is `max(min(due, 50), round(1.2 × sessions / 7))`, so it is not capped at 50. `Scheduler.SuggestedIsNotCapped` exhibits 60.
- The factory's default frequency is rank 0 at level "common", while the rank table puts rank 0 at "very-common" (`Vocabulary.DefaultLevelDisagreesWithTable`).
- CSV export followed by CSV import is not a round trip:
  - nothing is quoted or escaped, so a comma inside a cell splits it (`VocabularyCsv.UnquotedCommaSplitsCell`);
  - the export header `partOfSpeech` is not one of the importer's names, so the part of speech comes back as "noun";
  - only word, translation, pronunciation, difficulty and categories are read back (`VocabularyCsv.RestoredWord`).
- The interval never shrinks only for cards reachable from a fresh card (`Scheduler.WellFormed`). The state with repetition 1 and interval 10 shrinks to 6 (`Scheduler.IntervalShrinksOffInvariant`).

## Model

| member | source | states |
|---|---|---|
| Scheduler.EaseFactorResponse | src/lib/spacedRepetition.ts:43 | the new ease factor is never below 1.3; it is unchanged (up to the floor) at quality 4 and grows by 0.1 at 5; it rises for quality above 4, and falls for quality below 4 whenever the old factor is above the floor |
| Scheduler.NextEaseFactor | src/lib/spacedRepetition.ts:43 | the new ease factor is the larger of the 1.3 floor and the SM-2 update `ef + (0.1 - (5 - q)(0.08 + 0.02(5 - q)))`, so never below either |
| Scheduler.UpdateCardAfterReview | src/lib/spacedRepetition.ts:35-75 | the ease factor is updated before the branch, even for a failed answer; a quality below 3 resets the card to repetition 0 and interval 1; otherwise the repetition count grows by one and the interval is 1, then 6, then round(interval × new ease factor); the next review is `interval` days after `now`, the last review is `now`, the quality is recorded; id, word and translation are copied |
| Scheduler.CreateNewCard | src/lib/spacedRepetition.ts:112-130 | a fresh card has ease 2.5, interval 1, repetition 0 and quality 0, is dated `now`, is well formed, and is due at once |
| Scheduler.ReviewPreservesWellFormed | src/lib/spacedRepetition.ts:43-60 | a review keeps the reachable-state invariant: the ease factor is at least 1.3, the interval at least 1, and repetition 0, 1 or 2 pins the interval to 1, 1 or 6 |
| Scheduler.IntervalNeverShrinks | src/lib/spacedRepetition.ts:49-60 | on a reachable card, a correct answer never gives a shorter interval (the "increasing intervals" of the file's header comment) |
| Scheduler.IntervalShrinksOffInvariant | src/lib/spacedRepetition.ts:51-56 | outside the invariant the interval can shrink: repetition 1 and interval 10 become interval 6 after a perfect answer |
| Scheduler.IntervalStaysPositive | src/lib/spacedRepetition.ts:45-60 | an interval of at least one day stays at least one day after any review |
| Scheduler.ThreeCorrectReviews | src/lib/spacedRepetition.ts:43-64 | three correct answers from a fresh card give intervals 1, 6 and round(6 × ease), the third at least 8 days, each dated from its own review time |
| Scheduler.HolaScenario | src/lib/spacedRepetition.ts:43-64 | two perfect answers a day apart then a failure: intervals 1 and 6, ease 2.7, then a reset to one day |
| Scheduler.GetDueCards | src/lib/spacedRepetition.ts:80-83 | exactly the cards due at `now`, as an order-preserving subsequence, with each due card kept as often as it occurs |
| Scheduler.DueCardsIdempotent | src/lib/spacedRepetition.ts:80-83 | selecting the due cards twice at the same `now` gives the same list |
| Scheduler.PriorityTotal | src/lib/spacedRepetition.ts:91-106 | the comparator puts any two cards in some order |
| Scheduler.PriorityTransitive | src/lib/spacedRepetition.ts:91-106 | the comparator's order is transitive, so sorting by it is well defined |
| Scheduler.PrioritySortedMeans | src/lib/spacedRepetition.ts:91-106 | in a priority-sorted list every overdue card precedes every future card, overdue cards ascend by ease factor, and future cards ascend by next review date |
| Scheduler.SortCardsByPriority | src/lib/spacedRepetition.ts:88-107 | sorts the caller's array in place into priority order, as a permutation of its old contents; cards the comparator ties keep their input order, as the stable `sort` does |
| Scheduler.InsertCard | src/lib/spacedRepetition.ts:91-106 | one insertion step extends the sorted prefix by one card, permutes the array, and keeps tied cards in their order |
| Scheduler.SwapKeepsTies | src/lib/spacedRepetition.ts:91-106 | swapping two neighbours the comparator orders strictly leaves every class of tied cards in its order |
| Scheduler.CalculateRetentionRate | src/lib/spacedRepetition.ts:135-143 | 0 without sessions; otherwise 100 × correct / total, which lies in [0, 100] and is 100 when every session has quality at least 3 |
| Scheduler.Average | src/lib/spacedRepetition.ts:161-162 | the `sum / n \|\| 0` of the averages: 0 for no cards, otherwise the quotient |
| Scheduler.GetStudyStatistics | src/lib/spacedRepetition.ts:148-173 | total, due and mastered counts (both bounded by the total), the retention rate, and the mean ease factor and interval (0 with no cards) |
| Scheduler.StatisticsRespectFloors | src/lib/spacedRepetition.ts:159-172 | over reachable cards the mean ease factor is at least 1.3 and the mean interval at least 1 |
| Scheduler.GetUpcomingReviews | src/lib/spacedRepetition.ts:178-205 | one entry per day of the window, in day order, each counting the cards due on that calendar day; no entries for a non-positive window |
| Scheduler.WindowLoadCountsCards | src/lib/spacedRepetition.ts:185-202 | the loads of a window add up to the number of cards due inside it, so never more than the number of cards |
| Scheduler.UpcomingSingleCard | src/lib/spacedRepetition.ts:189-196 | a single card counts once on its due day and nowhere else |
| Scheduler.AdjustQualityByResponseTime | src/lib/spacedRepetition.ts:211-229 | a quality below 3 is returned unchanged; a quality in [3, 5] stays in [3, 5]; it rises (by at most 0.5, capped at 5) only for a response faster than half the average, falls (floored at 3) only for one slower than twice the average, and is unchanged in between |
| Scheduler.BucketsPartition | src/lib/spacedRepetition.ts:244-248 | the easy, medium and hard buckets split the cards: their sizes add up to the number of cards |
| Scheduler.HourTallyMeans | src/lib/spacedRepetition.ts:251-258 | an hour has an entry exactly when some session falls in it, and the entry counts that hour's sessions with quality at least 3 |
| Scheduler.HourTally | src/lib/spacedRepetition.ts:251-258 | keys are hours 0 to 23 and each count is between 0 and the number of sessions; `HourTallyMeans` states which hours appear and what they count |
| Scheduler.TallyTimeOfDay | src/lib/spacedRepetition.ts:251-258 | the forEach over the sessions builds the per-hour tally |
| Scheduler.WeeklyProgress | src/lib/spacedRepetition.ts:260-273 | seven entries, oldest first, the k-th counting the correct and total sessions of the day six minus k days before `now` |
| Scheduler.WeekEnding | src/lib/spacedRepetition.ts:262-273 | the loop from six days back to today pushes one day's tally per step |
| Scheduler.SuggestedIsNotCapped | src/lib/spacedRepetition.ts:275-281 | the suggestion is at least min(due, 50) but is not capped at 50: no due cards and 350 sessions suggest 60 |
| Scheduler.AnalyzeLearningPatterns | src/lib/spacedRepetition.ts:234-288 | the difficulty buckets (which add up to the number of cards), the hour tally, the seven daily tallies with correct never above total, and the suggested daily count |
| Vocabulary.CreateVocabularyWord | src/lib/vocabulary.ts:532-563 | every field the draft supplies is taken as given, and every absent one gets its default: empty collections, not favourite, the frequency rank 0 / common with corpus size 1000000 dated `now`, both dates `now`, noun, beginner, neutral register and connotation; the id is the supplied one or the fresh one |
| Vocabulary.MinimalWordDefaults | src/lib/vocabulary.ts:537-562 | a word from the three required fields alone gets a fresh id, empty collections, not favourite, and the default dates and frequency |
| Vocabulary.SuppliedFieldsOverride | src/lib/vocabulary.ts:561 | a draft supplying every field gives back exactly that word |
| Vocabulary.DefaultLevelDisagreesWithTable | src/lib/vocabulary.ts:551-558 | the default frequency's level "common" is not what the rank table gives for its rank 0 |
| Vocabulary.KeepWordIsConjunction | src/lib/vocabulary.ts:579-594 | the chain of early returns keeps a word exactly when every supplied filter holds |
| Vocabulary.KeepWord | src/lib/vocabulary.ts:579-594 | the callback of the filter; `KeepWordIsConjunction` states that it holds exactly when every supplied filter does |
| Vocabulary.FilterVocabulary | src/lib/vocabulary.ts:568-595 | an order-preserving subsequence of the words that keeps exactly the words meeting every supplied filter: language, difficulty and part-of-speech lists, a shared category, favourites, and a case-insensitive search in word, translation or a category |
| Vocabulary.EmptyFilterKeepsAll | src/lib/vocabulary.ts:579-594 | with no filter key set every word is kept |
| Vocabulary.CategorySetMeans | src/lib/vocabulary.ts:633-636 | the collected set holds a category exactly when some word has it |
| Vocabulary.GetCategories | src/lib/vocabulary.ts:632-638 | every category of every word, each once, in ascending code-unit order, and nothing else |
| Vocabulary.InsertString | src/lib/vocabulary.ts:633-637 | adding a string to a sorted duplicate-free list keeps it sorted and duplicate-free and adds exactly that string |
| Vocabulary.StrictlySortedDistinct | src/lib/vocabulary.ts:637 | the sorted category list has no repeated entry |
| Vocabulary.IndexOf | src/lib/vocabulary.ts:695-697 | `indexOf`: the first position of the string, or -1 exactly when it is absent |
| Vocabulary.Score | src/lib/vocabulary.ts:685-704 | the score is non-negative and at least 3 per shared category, 2 for equal difficulty and 1 for equal part of speech |
| Vocabulary.SuggestRelatedWords | src/lib/vocabulary.ts:678-712 | words of the list other than the target with a positive score, in non-increasing score order, min(limit, candidates) of them for a non-negative limit, none more often than it is a candidate; among candidates of equal score, the ones kept are the first in list order, in that order (the stable sort before the slice) |
| Vocabulary.SuggestionsAreTopScored | src/lib/vocabulary.ts:706-708 | a candidate that was cut off scores no higher than any suggestion |
| Vocabulary.NoSelfSuggestion | src/lib/vocabulary.ts:684 | the target is never suggested |
| Vocabulary.GetFrequencyLevel | src/lib/vocabulary.ts:1174-1180 | each level holds exactly on its rank band: up to 1000 very-common, up to 5000 common, up to 20000 uncommon, up to 50000 rare, beyond that archaic |
| Vocabulary.FrequencyLevelMonotone | src/lib/vocabulary.ts:1174-1180 | a larger rank never gives a more common level |
| VocabularyCsv.ParseCellsMeans | src/lib/vocabulary.ts:727-751 | each field is the last non-empty cell whose header selects it, matched case-insensitively by column index; categories are that cell split on ';' and trimmed |
| VocabularyCsv.ApplyCellFields | src/lib/vocabulary.ts:728-750 | one cell sets only the field its header names, and only when it is non-empty |
| VocabularyCsv.LastValueUnique | src/lib/vocabulary.ts:724-751 | when one header alone selects a field, the field is that column's cell if it is non-empty, and absent otherwise |
| VocabularyCsv.ImportedWord | src/lib/vocabulary.ts:753-755 | the built word has the row's word and translation, the import language and the given id and date, and the row's pronunciation, part of speech, difficulty and categories, or their defaults |
| VocabularyCsv.Lines | src/lib/vocabulary.ts:718 | splitting the trimmed text always gives at least the header line |
| VocabularyCsv.ParseValues | src/lib/vocabulary.ts:727-751 | the forEach over the headers computes the row's fields |
| VocabularyCsv.ImportLine | src/lib/vocabulary.ts:724-755 | a data line contributes nothing, or the word built from its fields when both word and translation are set |
| VocabularyCsv.ImportLines | src/lib/vocabulary.ts:723-757 | the loop over the lines after the header collects each line's word in order |
| VocabularyCsv.ImportFromCSV | src/lib/vocabulary.ts:717-759 | the words imported from the text's lines |
| VocabularyCsv.ImportedLines | src/lib/vocabulary.ts:723-756 | the words collected from the data lines; `ImportedWordsFacts` and `ServiceCsvRoundTrip` state what they hold |
| VocabularyCsv.CollectFacts | src/lib/vocabulary.ts:723-757 | at most one word per data row, each in the import language with a non-empty word and translation |
| VocabularyCsv.ImportedWordsFacts | src/lib/vocabulary.ts:717-759 | at most (lines − 1) words, each in the requested language with a non-empty word and translation |
| VocabularyCsv.ExportToCsvLines | src/lib/vocabulary.ts:764-782 | when no cell holds a comma or line break, the export splits into the header line and one line per word |
| VocabularyCsv.ExportToCsvRowCells | src/lib/vocabulary.ts:766-779 | each data line of the free export splits on commas back into its word's 19 cells |
| VocabularyCsv.ExportToCsv | src/lib/vocabulary.ts:764-782 | the free export; `ExportToCsvLines` and `ExportToCsvRowCells` state its lines and cells |
| VocabularyCsv.ServiceCsv | src/lib/vocabulary.ts:1182-1212 | the service export; `ServiceCsvLines` and `ServiceCsvRoundTrip` state its lines and what re-importing it gives |
| VocabularyCsv.ServiceHeaderColumns | src/lib/vocabulary.ts:1183-1188 | on import the service headers select word, translation, pronunciation, difficulty and categories; "partOfSpeech" selects nothing |
| VocabularyCsv.ServiceCsvLines | src/lib/vocabulary.ts:1182-1212 | with clean cells, the export splits into the header line and one line per word |
| VocabularyCsv.ServiceCsvRoundTrip | src/lib/vocabulary.ts:1182-1212 | importing the service export of clean words gives back one word per exported word, in order, rebuilt from the columns the importer reads |
| VocabularyCsv.RestoredWord | src/lib/vocabulary.ts:717-759 | what survives export and import: word, translation and categories; pronunciation and difficulty unless empty; the part of speech comes back as "noun" |
| VocabularyCsv.UnquotedCommaSplitsCell | src/lib/vocabulary.ts:1211 | with no quoting, the translation "house, home" is read back as "house" |
| VocabularyAnki.SynonymsSegmentIff | src/lib/vocabulary.ts:1222 | the "Synonyms: " segment follows the fixed part of the back exactly when the word has synonyms, and lists them separated by ", " |
| VocabularyAnki.EtymologySegmentIff | src/lib/vocabulary.ts:1223 | the "Etymology: " segment follows exactly when the word has an etymology, and ends the back with its origin |
| VocabularyAnki.AnkiLineFields | src/lib/vocabulary.ts:1216-1226 | a card line splits on ';' into front (the word), back and tags when none of them holds a ';' |
| VocabularyAnki.AnkiTagsFields | src/lib/vocabulary.ts:1224 | the tags split on spaces into language, difficulty and the categories |
| VocabularyAnki.ExportToAnkiLines | src/lib/vocabulary.ts:1214-1230 | no words export to the empty text; otherwise the export is one card line per word, in store order |
| VocabularyAnki.ExportToAnki | src/lib/vocabulary.ts:1214-1230 | the Anki export; `ExportToAnkiLines` and `AnkiLineFields` state its lines and fields |
| Statistics.TallyCounts | src/lib/vocabulary.ts:1041-1056 | a counter has an entry for exactly the keys seen, holding how often each was seen |
| Statistics.BumpAll | src/lib/vocabulary.ts:1073-1080 | the forEach over prefixes or suffixes bumps each key in turn |
| Statistics.CountWord | src/lib/vocabulary.ts:1033-1083 | the callback for one word adds its rank (when positive), its keys and its idiom, phrase and collocation counts |
| Statistics.CountOrigin | src/lib/vocabulary.ts:1041-1044 | a truthy etymology origin is counted once |
| Statistics.CountRegister | src/lib/vocabulary.ts:1047-1050 | a truthy register is counted once |
| Statistics.CountEmotion | src/lib/vocabulary.ts:1053-1056 | a truthy emotional connotation is counted once |
| Statistics.CountMorphology | src/lib/vocabulary.ts:1064-1082 | words with inflections or derived forms are counted, and prefixes and suffixes tallied |
| Statistics.ComputeStatistics | src/lib/vocabulary.ts:1013-1088 | the single pass over the words computes the statistics, including the mean of the positive ranks |
| Statistics.StatisticsOf | src/lib/vocabulary.ts:1013-1088 | the statistics of a list of words; `TallyMeaning`, `RankTotalBound` and `AverageRankBound` state what each field counts |
| Statistics.RankTotalBound | src/lib/vocabulary.ts:1035-1038 | the number of ranked words is at most the number of words, and at most the sum of their ranks |
| Statistics.AverageRankBound | src/lib/vocabulary.ts:1085-1087 | the mean rank is at least 1 when some word is ranked, and 0 when none is |
| Statistics.TallyMeaning | src/lib/vocabulary.ts:1041-1082 | each distribution counts, per key, the words (or morphology entries) that carry it |
| Statistics.GatheredOrigins | src/lib/vocabulary.ts:1041-1044 | an origin is tallied exactly when some word has that non-empty etymology origin |
| WordDatabase.AddToIndexMeans | src/lib/vocabulary.ts:1150-1153 | filing an id under a key adds that id to that key's set (creating it) and changes no other key |
| WordDatabase.FileUnder | src/lib/vocabulary.ts:1150-1153 | create the key's set when it is missing, then add the id |
| WordDatabase.FileUnderAll | src/lib/vocabulary.ts:1156-1161 | the category loop files the id under each category in turn |
| WordDatabase.AddToIndexAllMeans | src/lib/vocabulary.ts:1156-1161 | after the category loop the id is under exactly the old keys plus the word's categories |
| WordDatabase.LanguageIndexMeans | src/lib/vocabulary.ts:1164-1172 | filing a list of words into a language index files an id under a language exactly when it was filed there already or some word of the list has that id and language |
| WordDatabase.CategoryIndexMeans | src/lib/vocabulary.ts:1164-1172 | filing a list of words into a category index files an id under a category exactly when it was filed there already or some word of the list has that id and category |
| WordDatabase.SearchList | src/lib/vocabulary.ts:847-899 | the loop keeps, in order, the words passing the language filter that hit an enabled field |
| WordDatabase.MatchesSearch | src/lib/vocabulary.ts:850-898 | the field-by-field test with its `continue`s: the term occurs in word, translation, a category, a synonym or an antonym, or in etymology, idioms or phrases when their flag is set |
| WordDatabase.DisabledFieldsIgnored | src/lib/vocabulary.ts:873-896 | a field whose flag is off has no effect on the outcome |
| WordDatabase.RangeByRank | src/lib/vocabulary.ts:910-916 | ascending by rank, only words of the language with minRank ≤ rank ≤ maxRank, every such word, as a permutation of the filtered list, with equally ranked words in list order (the stable sort) |
| WordDatabase.TopRanked | src/lib/vocabulary.ts:923-926 | ascending by rank, only ranked words of the language, min(limit, ranked words) of them for a non-negative limit, none more often than in the list, no left-out ranked word ranking lower than one kept, and among equally ranked words the first ones in list order |
| WordDatabase.RefreshAllMeans | src/lib/vocabulary.ts:974-987 | refreshing distinct ids keeps the keys, refreshes each listed word and leaves the others alone |
| WordDatabase.RefreshMap | src/lib/vocabulary.ts:974-987 | the loop refreshes each listed word in turn |
| WordDatabase.RefreshFrequency | src/lib/vocabulary.ts:975-986 | the loop body for one word |
| WordDatabase.RefreshedFacts | src/lib/vocabulary.ts:975-986 | a word found in the table takes its frequencies and rank, the level of the rank, and `now`; everything else is kept; a word not found is unchanged |
| WordDatabase.RefreshedStore | src/lib/vocabulary.ts:974-987 | refreshing every stored word keeps the store invariant: same keys, each word under its own id |
| WordDatabase.AddAllMeans | src/lib/vocabulary.ts:826-829 | after storing a list of words an id is stored exactly when it was before or some word has it; the last word with an id wins; other entries are unchanged |
| WordDatabase.OrderAfterExtends | src/lib/vocabulary.ts:826-829 | storing a list of words never moves an id already in the insertion order; every id after the old order belongs to an added word that was not stored before |
| WordDatabase.StoreAdd | src/lib/vocabulary.ts:826-829 | storing a word keeps each key listed once in insertion order; a new id goes to the end, an existing one keeps its place |
| WordDatabase.CoversAdd | src/lib/vocabulary.ts:826-829 | storing and filing a word keeps every stored word filed under its language and categories |
| WordDatabase.WordDatabaseService.Values | src/lib/vocabulary.ts:1009-1011 | the stored words in insertion order |
| WordDatabase.WordDatabaseService.ExactIndexesSound | src/lib/vocabulary.ts:1164-1172 | rebuilt indexes file every word, and only under its own language and categories |
| WordDatabase.WordDatabaseService.constructor | src/lib/vocabulary.ts:795-802 | an empty store whose indexes are exact |
| WordDatabase.WordDatabaseService.GetWord | src/lib/vocabulary.ts:834-836 | the stored word with this id, absent exactly when the id is unknown |
| WordDatabase.WordDatabaseService.UpdateIndexes | src/lib/vocabulary.ts:1148-1162 | files the id under its language and each of its categories, and changes nothing else |
| WordDatabase.WordDatabaseService.AddWord | src/lib/vocabulary.ts:826-829 | stores or overwrites the word without validating it, and files it; stale index entries of an overwritten word remain, but every stored word stays filed |
| WordDatabase.WordDatabaseService.RebuildIndexes | src/lib/vocabulary.ts:1164-1172 | clears every index (the frequency-rank index included) and refiles every stored word, leaving the indexes exact |
| WordDatabase.WordDatabaseService.ValuesDistinct | src/lib/vocabulary.ts:795 | the stored words carry distinct ids |
| WordDatabase.WordDatabaseService.SearchWords | src/lib/vocabulary.ts:841-900 | filters the stored words in insertion order by the lower-cased query |
| WordDatabase.WordDatabaseService.SearchResultsFacts | src/lib/vocabulary.ts:847-899 | the results keep insertion order, hold no word twice, each passes the language filter and hits an enabled field, and every stored word that does is returned |
| WordDatabase.WordDatabaseService.SearchFlagsMonotone | src/lib/vocabulary.ts:873-896 | enabling more fields never loses a result |
| WordDatabase.WordDatabaseService.GetWordsByFrequencyRange | src/lib/vocabulary.ts:905-917 | the stored words of the language within the rank range, all of them, ascending by rank, equal ranks in insertion order |
| WordDatabase.WordDatabaseService.GetMostFrequentWords | src/lib/vocabulary.ts:922-927 | min(limit, ranked words of the language) stored words for a non-negative limit, ascending by rank, none ranking above a left-out one, equal ranks taken first-inserted first |
| WordDatabase.WordDatabaseService.GetWordsByEtymology | src/lib/vocabulary.ts:932-938 | the stored words, in insertion order, of the language whose etymology origin contains the lower-cased term, and all of them |
| WordDatabase.WordDatabaseService.GetIdiomsForWord | src/lib/vocabulary.ts:943-946 | the word's idioms, none for an unknown id |
| WordDatabase.WordDatabaseService.GetPhrasesForWord | src/lib/vocabulary.ts:951-954 | the word's phrases, none for an unknown id |
| WordDatabase.WordDatabaseService.GetCollocationsForWord | src/lib/vocabulary.ts:959-962 | the word's collocations, none for an unknown id |
| WordDatabase.WordDatabaseService.UpdateWordFrequencies | src/lib/vocabulary.ts:967-988 | every stored word is refreshed from the table by its lower-cased surface form, keys and order are kept, and the indexes end up exact |
| WordDatabase.WordDatabaseService.RefreshWords | src/lib/vocabulary.ts:974-986 | the loop over the stored words refreshes each one |
| WordDatabase.WordDatabaseService.Selected | src/lib/vocabulary.ts:1009-1011 | a truthy language keeps, in order, exactly the stored words of that language; otherwise every stored word |
| WordDatabase.WordDatabaseService.GetWordStatistics | src/lib/vocabulary.ts:993-1089 | the statistics of the selected words |
| WordDatabase.WordDatabaseService.ExportWordsFormats | src/lib/vocabulary.ts:1094-1112 | the csv export is the header line and one row per selected word; the anki export is empty for no words and otherwise one card line per selected word |
| WordDatabase.WordDatabaseService.ExportWords | src/lib/vocabulary.ts:1094-1112 | the csv and anki branches on the selected words; `ExportWordsFormats` and `ExportedCsvReimports` state what they produce |
| WordDatabase.WordDatabaseService.ExportedCsvReimports | src/lib/vocabulary.ts:1103-1104 | importing the csv export of clean words yields one word per selected word, rebuilt from the columns the importer reads |
| WordDatabase.WordDatabaseService.ImportWords | src/lib/vocabulary.ts:1117-1143 | adds every word parsed from the CSV text in order: the store, the insertion order and both indexes become those of addWord applied to each parsed word in turn; returns how many were parsed; every stored word stays filed |
| WordDatabase.WordDatabaseService.AddWords | src/lib/vocabulary.ts:1131-1135 | the forEach calls addWord for each word and counts them: the new store, insertion order and indexes are each word applied in turn |
| Gamification.LevelFromXP | src/components/Gamification.tsx:300-302 | levels are 1000 XP wide: (level − 1)·1000 ≤ xp < level·1000, and the level is at least 1 for non-negative XP |
| Gamification.XPToNextLevel | src/components/Gamification.tsx:304-307 | between 1 and 1000; adding it reaches the next level boundary exactly, and one XP less stays in the current level |
| Gamification.ProgressPercentage | src/components/Gamification.tsx:309-311 | never above 100, exactly 100 once current reaches max, proportional below that, and non-negative for non-negative progress |
| Gamification.CheckAchievements | src/components/Gamification.tsx:223-278 | each achievement is replaced by its checked form, in order; the newly unlocked ones are reported with one XP request each |
| Gamification.CheckOne | src/components/Gamification.tsx:226-271 | the map callback for one achievement: checked form, and whether it was just unlocked |
| Gamification.CheckedFacts | src/components/Gamification.tsx:227-271 | the check keeps id, limits, reward, rarity and category; progress is the tracked statistic, or the stored progress for an unmapped id; unlocked exactly when progress reaches the maximum |
| Gamification.NewlyUnlockedMeans | src/components/Gamification.tsx:259-265 | an achievement is reported exactly when it was locked before and qualifies now, and it is reported unlocked |
| Gamification.XpRequestsMatch | src/components/Gamification.tsx:261-265 | one XP request per reported achievement, for its reward on top of the rendered XP |
| Gamification.CheckIdempotent | src/components/Gamification.tsx:226-272 | a second check with the same statistics changes nothing and reports nothing |
| Gamification.InitialIsChecked | src/components/Gamification.tsx:51-221 | the initial table agrees with the check: checking it changes nothing and reports nothing |
| Gamification.StaleXpLosesReward | src/components/Gamification.tsx:264 | as written, the merged XP after a check is the rendered XP plus the last reward only; the other rewards are lost |
| Gamification.FirstWordAndQuizNovice | src/components/Gamification.tsx:261-265 | unlocking first_word (50) and quiz_novice (75) together shows 75 XP where 125 were earned |
| Gamification.CumulativeXpRequests | src/components/Gamification.tsx:264 | corrected requests: the k-th asks for the rendered XP plus every reward up to the k-th |
| Gamification.CumulativeXpTotal | src/app/page.tsx:108 | with the corrected requests, the page's last-wins merge ends at the rendered XP plus every reward |
| TextPrompt.ScanWord | src/components/TextPrompt.tsx:126-138 | the two loops stop at the maximal run of `\w` characters around the cursor: 0 ≤ start ≤ cursor ≤ end ≤ length, and neither neighbour is a word character |
| TextPrompt.MaximalWordSpanUnique | src/components/TextPrompt.tsx:130-138 | there is only one maximal span around a cursor |
| TextPrompt.HandleDoubleClick | src/components/TextPrompt.tsx:121-150 | selects the word under the cursor; nothing exactly when neither character next to the cursor is a word character |
| TextPrompt.WordSpanTrimmed | src/components/TextPrompt.tsx:140 | trimming a run of word characters changes nothing |
| TextPrompt.TextSelection | src/components/TextPrompt.tsx:99-119 | a recorded selection is non-empty and starts and ends with no white space |
| TextPrompt.TextSelectionNone | src/components/TextPrompt.tsx:106-109 | nothing is recorded exactly when the range is empty or holds only white space |
| TextPrompt.TextSelectionInValue | src/components/TextPrompt.tsx:108 | the recorded text occurs in the textarea's value |
| TextPrompt.LookupExamples | src/components/TextPrompt.tsx:168 | one example per looked-up sentence, same sentence, empty translation |
| TextPrompt.LookupDraft | src/components/TextPrompt.tsx:163-174 | the draft handed to the factory; `AddedWordFacts` states the record it produces |
| TextPrompt.AddedWordFacts | src/components/TextPrompt.tsx:160-180 | the added record has the lookup's word, translation, pronunciation, synonyms and antonyms, the caller's language, categories exactly ["imported"], one example per sentence, and the factory defaults |
| Text.Trim | src/components/TextPrompt.tsx:108 | `trim` leaves no white space at either end |
| Text.TrimEmptyIff | src/components/TextPrompt.tsx:109 | trimming leaves nothing exactly when every character is white space |
| Text.TrimIdempotent | src/lib/vocabulary.ts:718-720 | trimming twice is trimming once |
| Text.Split | src/lib/vocabulary.ts:718-719 | `split` on one character gives at least one piece, none holding the separator |
| Text.SplitJoin | src/lib/vocabulary.ts:1211 | joining pieces free of the separator and splitting again gives the pieces back |
| Text.LessTransitive | src/lib/vocabulary.ts:637 | the default sort order on strings is transitive |
| Text.LessTotal | src/lib/vocabulary.ts:637 | any two different strings are ordered one way or the other |
| Collections.SortByKeyStable | src/lib/vocabulary.ts:916 | the sort by a numeric key keeps elements of equal key in their input order |
| Collections.StableCut | src/lib/vocabulary.ts:925-926 | cutting a stably sorted list keeps, for every key, the first elements of that key in input order |

## Left out

- The JSON branches of `exportWords` and `importWords` (`JSON.stringify` / `JSON.parse`) are not modelled. `WordDatabase.WordDatabaseService.ExportWords` covers csv and anki, and `ImportWords` covers csv. The unsupported-format `throw` and the `try/catch` around the import are not modelled either.
- `JSON.stringify`, number printing and `toISOString` inside CSV cells are `Encoders` parameters, not specified.
- `generateId` (random) is replaced by a supplied `freshId` / `ids` parameter. Every `new Date()` is replaced by a `now` parameter. A review's date stamps are both that one `now`.
- Local-calendar logic (`setDate`, `getFullYear/getMonth/getDate`, `toDateString`, `getHours`, time zones, daylight saving) is UTC day and hour arithmetic on millisecond timestamps. The ISO date strings of `getUpcomingReviews` are replaced by day numbers.
- Floating point: ease factors, qualities and percentages are exact reals, so IEEE-754 rounding is not modelled. `Math.round` is modelled as round-half-up.
- `toLowerCase` and the string sort order: lower-casing is ASCII only. `Array.prototype.sort` on strings is compared by Dafny characters, which equals UTF-16 order within the Basic Multilingual Plane.
- The `defaultVocabulary` table and `initializeDefaultData`: `WordDatabase.WordDatabaseService.constructor` starts from an empty store.
- `indexByFrequencyRank` is only declared and cleared, as in the source; it is never filled.
- The words map's values are updated in place in the source (`word.frequency = …`), where other holders of the same object would see the change. The model replaces map values, so that aliasing is not captured.
- The stored word map is modelled as a map plus the insertion order of its keys. This stands in for `Map` iteration order.
- `sortVocabulary`, `getVocabularyStats` and the React rendering, state hooks, timers, speech synthesis and the mock `getWordInfo` of both components are not part of this model.
- TextPrompt.LookupDraft: the source also passes the lookup's frequency label (a string) and etymology text to `createVocabularyWord`. These overwrite the record's frequency object and etymology with values of the wrong type, so the model keeps the factory's defaults for those two fields.
- TextPrompt.ScanWord: requires the cursor to lie within the text, which a textarea's `selectionStart` always does.
- TextPrompt.HandleDoubleClick: requires the cursor to lie within the text, as `ScanWord` does. The popup position is not modelled.
- Gamification.ProgressPercentage: requires `max > 0`. For a zero `max` the source computes `Math.min((current / 0) * 100, 100)`: 100 for a positive `current`, `NaN` for 0 and `-Infinity` for a negative one; every call site passes a positive maximum.
- Default arguments are explicit parameters: `days = 7` of getUpcomingReviews (src/lib/spacedRepetition.ts:180), `averageResponseTime = 3000` of adjustQualityByResponseTime (src/lib/spacedRepetition.ts:214), `limit = 5` of suggestRelatedWords (src/lib/vocabulary.ts:681), `options = {}` of searchWords (src/lib/vocabulary.ts:846) and `limit = 100` of getMostFrequentWords (src/lib/vocabulary.ts:922).
- Scheduler.AdjustQualityByResponseTime: requires a positive average response time. The source's default is 3000.
- Scheduler.WeeklyProgress: states each day's tally by `DayTally` of the UTC day number rather than by `toDateString` in local time.
- Scheduler.GetUpcomingReviews: counts by UTC day number rather than local calendar date.
- VocabularyCsv.ServiceCsvRoundTrip: is stated only for exports whose cells hold no comma, no line break and no edge white space, because nothing is quoted. `VocabularyCsv.UnquotedCommaSplitsCell` shows what happens otherwise.
- Gamification.CheckAchievements: returns the achievements, the newly unlocked list and the XP requests instead of calling `setAchievements`, `onUpdateStats` and `setTimeout`.

## Findings

| source | as written | input that shows it | evidently intended | confidence | as-written member | corrected member |
|---|---|---|---|---|---|---|
| src/components/Gamification.tsx:264 | each newly unlocked achievement requests `xp: userStats.xp + xpReward` from the XP the component was rendered with; the page (src/app/page.tsx:108) merges each request over the previous one, so only the last reward counts | a user with one word learned and one quiz completed, first_word and quiz_novice both locked, 0 XP: one check ends at 75 XP | every reward of the check is added: 125 XP | medium, not executed | Gamification.StaleXpLosesReward, Gamification.FirstWordAndQuizNovice | Gamification.CumulativeXpRequests, Gamification.CumulativeXpTotal |
