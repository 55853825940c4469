/** The WordDatabaseService class of src/lib/vocabulary.ts: a map from id to
    word that remembers insertion order, a language index and a category index
    kept by addWord and rebuilt from scratch by rebuildIndexes, and the
    queries, statistics, exports and csv import built on top of them. */
module WordDatabase {
  import opened Collections
  import opened Text
  import opened Vocabulary
  import opened VocabularyCsv
  import opened VocabularyAnki
  import opened Statistics

  /* ---------------------------------------------------------------------
     Indexes: a map from a key (language or category) to a set of ids. */

  type Index = map<string, set<string>>

  /** `id` is filed under `key`. */
  predicate InIndex(index: Index, key: string, id: string) {
    key in index && id in index[key]
  }

  /** The ids filed under `key`; none when the key is absent. */
  function IdsAt(index: Index, key: string): set<string> {
    if key in index then index[key] else {}
  }

  /** `if (!index.has(key)) index.set(key, new Set()); index.get(key).add(id)`:
      `id` joins the entry for `key`, every other entry stays as it was. */
  function AddToIndex(index: Index, key: string, id: string): Index {
    index[key := IdsAt(index, key) + {id}]
  }

  lemma AddToIndexMeans(index: Index, key: string, id: string, k: string)
    ensures k in AddToIndex(index, key, id) <==> k in index || k == key
    ensures IdsAt(AddToIndex(index, key, id), k) == IdsAt(index, k) + (if k == key then {id} else {})
  {
  }

  /** `id` added under each of `keys`, in order (the category loop of updateIndexes). */
  function AddToIndexAll(index: Index, keys: seq<string>, id: string): Index
    decreases |keys|
  {
    if keys == [] then index
    else AddToIndex(AddToIndexAll(index, keys[..|keys| - 1], id), keys[|keys| - 1], id)
  }

  /** One step of updateIndexes: create the key's set when missing, then add the id. */
  method FileUnder(index: Index, key: string, id: string) returns (r: Index)
    ensures r == AddToIndex(index, key, id)
  {
    r := index;
    if key !in r {
      r := r[key := {}];
    }
    r := r[key := r[key] + {id}];
  }

  /** The category loop of updateIndexes. */
  method FileUnderAll(index: Index, keys: seq<string>, id: string) returns (r: Index)
    ensures r == AddToIndexAll(index, keys, id)
  {
    r := index;
    var i := 0;
    while i < |keys|
      invariant 0 <= i <= |keys|
      invariant r == AddToIndexAll(index, keys[..i], id)
    {
      r := FileUnder(r, keys[i], id);
      assert keys[..i + 1][..i] == keys[..i];
      i := i + 1;
    }
    assert keys[..i] == keys;
  }

  /** Adding under several keys files `id` under exactly those keys and
      leaves every other entry alone. */
  lemma {:induction false} AddToIndexAllMeans(index: Index, keys: seq<string>, id: string, k: string)
    ensures k in AddToIndexAll(index, keys, id) <==> k in index || k in keys
    ensures IdsAt(AddToIndexAll(index, keys, id), k) == IdsAt(index, k) + (if k in keys then {id} else {})
    decreases |keys|
  {
    if keys != [] {
      var init := keys[..|keys| - 1];
      AddToIndexAllMeans(index, init, id, k);
      assert k in keys <==> k in init || k == keys[|keys| - 1];
    }
  }

  /** The language index `start` after filing each word of the list in turn
      (from `map[]`, the index rebuildIndexes builds). */
  function LanguageIndexOf(start: Index, ws: seq<VocabularyWord>): Index
    decreases |ws|
  {
    if ws == [] then start
    else
      var w := ws[|ws| - 1];
      AddToIndex(LanguageIndexOf(start, ws[..|ws| - 1]), w.language, w.id)
  }

  /** The category index `start` after filing each word of the list in turn. */
  function CategoryIndexOf(start: Index, ws: seq<VocabularyWord>): Index
    decreases |ws|
  {
    if ws == [] then start
    else
      var w := ws[|ws| - 1];
      AddToIndexAll(CategoryIndexOf(start, ws[..|ws| - 1]), w.categories, w.id)
  }

  /** Some word of the list has this id and this language. */
  predicate HasWordIn(ws: seq<VocabularyWord>, language: string, id: string) {
    exists i :: 0 <= i < |ws| && ws[i].language == language && ws[i].id == id
  }

  /** Some word of the list has this id and this category. */
  predicate HasWordUnder(ws: seq<VocabularyWord>, category: string, id: string) {
    exists i :: 0 <= i < |ws| && category in ws[i].categories && ws[i].id == id
  }

  lemma HasWordInSnoc(ws: seq<VocabularyWord>, language: string, id: string)
    requires ws != []
    ensures HasWordIn(ws, language, id) <==>
      HasWordIn(ws[..|ws| - 1], language, id) || (ws[|ws| - 1].language == language && ws[|ws| - 1].id == id)
  {
    var init := ws[..|ws| - 1];
    if HasWordIn(init, language, id) {
      var i :| 0 <= i < |init| && init[i].language == language && init[i].id == id;
      assert ws[i] == init[i];
    }
    if HasWordIn(ws, language, id) {
      var i :| 0 <= i < |ws| && ws[i].language == language && ws[i].id == id;
      if i < |init| { assert init[i] == ws[i]; }
    }
  }

  lemma HasWordUnderSnoc(ws: seq<VocabularyWord>, category: string, id: string)
    requires ws != []
    ensures HasWordUnder(ws, category, id) <==>
      HasWordUnder(ws[..|ws| - 1], category, id) || (category in ws[|ws| - 1].categories && ws[|ws| - 1].id == id)
  {
    var init := ws[..|ws| - 1];
    if HasWordUnder(init, category, id) {
      var i :| 0 <= i < |init| && category in init[i].categories && init[i].id == id;
      assert ws[i] == init[i];
    }
    if HasWordUnder(ws, category, id) {
      var i :| 0 <= i < |ws| && category in ws[i].categories && ws[i].id == id;
      if i < |init| { assert init[i] == ws[i]; }
    }
  }

  /** Filing a list of words files an id under a language exactly when it was
      filed there before or some word of the list has that id and that language. */
  lemma {:induction false} LanguageIndexMeans(start: Index, ws: seq<VocabularyWord>, key: string, id: string)
    ensures InIndex(LanguageIndexOf(start, ws), key, id) <==> InIndex(start, key, id) || HasWordIn(ws, key, id)
    decreases |ws|
  {
    if ws != [] {
      LanguageIndexMeans(start, ws[..|ws| - 1], key, id);
      HasWordInSnoc(ws, key, id);
    }
  }

  /** Filing a list of words files an id under a category exactly when it was
      filed there before or some word of the list has that id and that category. */
  lemma {:induction false} CategoryIndexMeans(start: Index, ws: seq<VocabularyWord>, key: string, id: string)
    ensures InIndex(CategoryIndexOf(start, ws), key, id) <==> InIndex(start, key, id) || HasWordUnder(ws, key, id)
    decreases |ws|
  {
    if ws != [] {
      var w := ws[|ws| - 1];
      CategoryIndexMeans(start, ws[..|ws| - 1], key, id);
      AddToIndexAllMeans(CategoryIndexOf(start, ws[..|ws| - 1]), w.categories, w.id, key);
      HasWordUnderSnoc(ws, key, id);
    }
  }

  /** An id filed under a key stays filed after more ids are added. */
  lemma AddToIndexAllKeeps(index: Index, keys: seq<string>, id: string, k: string, x: string)
    requires InIndex(index, k, x)
    ensures InIndex(AddToIndexAll(index, keys, id), k, x)
  {
    AddToIndexAllMeans(index, keys, id, k);
  }

  /** After adding under `keys`, `id` is filed under each of them. */
  lemma AddToIndexAllFiles(index: Index, keys: seq<string>, id: string, k: string)
    requires k in keys
    ensures InIndex(AddToIndexAll(index, keys, id), k, id)
  {
    AddToIndexAllMeans(index, keys, id, k);
  }

  lemma IndexesOfStep(start: Index, ws: seq<VocabularyWord>, i: int)
    requires 0 <= i < |ws|
    ensures LanguageIndexOf(start, ws[..i + 1]) == AddToIndex(LanguageIndexOf(start, ws[..i]), ws[i].language, ws[i].id)
    ensures CategoryIndexOf(start, ws[..i + 1]) == AddToIndexAll(CategoryIndexOf(start, ws[..i]), ws[i].categories, ws[i].id)
  {
    assert ws[..i + 1][..i] == ws[..i];
  }

  /** The stored words in the order of `order`. */
  function ValuesOf(words: map<string, VocabularyWord>, order: seq<string>): (r: seq<VocabularyWord>)
    requires forall i :: 0 <= i < |order| ==> order[i] in words
    ensures |r| == |order|
    ensures forall i :: 0 <= i < |order| ==> r[i] == words[order[i]]
  {
    seq(|order|, i requires 0 <= i < |order| && order[i] in words => words[order[i]])
  }

  /* ---------------------------------------------------------------------
     Search and queries. */

  /** The options of searchWords; an absent or empty language filters nothing. */
  datatype SearchOptions = SearchOptions(
    language: Option<string>,
    includeEtymology: bool,
    includeIdioms: bool,
    includePhrases: bool)

  /** A truthy language other than the word's excludes it. */
  predicate LanguageExcluded(w: VocabularyWord, language: Option<string>) {
    language.Some? && language.value != "" && w.language != language.value
  }

  predicate EtymologyHit(w: VocabularyWord, term: string) {
    w.etymology.Some? &&
    (Contains(Lower(w.etymology.value.origin), term) || Contains(Lower(w.etymology.value.meaningEvolution), term))
  }

  predicate IdiomHit(w: VocabularyWord, term: string) {
    exists i :: 0 <= i < |w.idioms| &&
      (Contains(Lower(w.idioms[i].phrase), term) || Contains(Lower(w.idioms[i].meaning), term))
  }

  predicate PhraseHit(w: VocabularyWord, term: string) {
    exists i :: 0 <= i < |w.phrases| &&
      (Contains(Lower(w.phrases[i].phrase), term) || Contains(Lower(w.phrases[i].meaning), term))
  }

  /** The lower-cased term occurs in an enabled field: word, translation, a
      category, a synonym or an antonym always; the etymology, the idioms
      and the phrases only when their flag is set. */
  predicate SearchHit(w: VocabularyWord, term: string, options: SearchOptions) {
    && !LanguageExcluded(w, options.language)
    && (|| Contains(Lower(w.word), term) || Contains(Lower(w.translation), term)
        || SomeContains(w.categories, term)
        || SomeContains(w.synonyms, term) || SomeContains(w.antonyms, term)
        || (options.includeEtymology && EtymologyHit(w, term))
        || (options.includeIdioms && IdiomHit(w, term))
        || (options.includePhrases && PhraseHit(w, term)))
  }

  function SearchMatcher(term: string, options: SearchOptions): VocabularyWord -> bool {
    (w: VocabularyWord) => SearchHit(w, term, options)
  }

  /** The loop of searchWords: keep each word that passes the language
      filter and hits an enabled field, in order. */
  method SearchList(ws: seq<VocabularyWord>, searchTerm: string, options: SearchOptions)
    returns (results: seq<VocabularyWord>)
    ensures results == Filter(SearchMatcher(searchTerm, options), ws)
  {
    results := [];
    var n := 0;
    while n < |ws|
      invariant 0 <= n <= |ws|
      invariant results == Filter(SearchMatcher(searchTerm, options), ws[..n])
    {
      var hit := MatchesSearch(ws[n], searchTerm, options);
      if hit {
        results := results + [ws[n]];
      }
      FilterSnoc(SearchMatcher(searchTerm, options), ws, n);
      n := n + 1;
    }
    assert ws[..n] == ws;
  }

  /** The test searchWords makes of one word, checked field by field. */
  method MatchesSearch(word: VocabularyWord, searchTerm: string, options: SearchOptions) returns (hit: bool)
    ensures hit == SearchHit(word, searchTerm, options)
  {
    if LanguageExcluded(word, options.language) {
      hit := false;
    } else if Contains(Lower(word.word), searchTerm) || Contains(Lower(word.translation), searchTerm) {
      hit := true;
    } else if SomeContains(word.categories, searchTerm) {
      hit := true;
    } else if SomeContains(word.synonyms, searchTerm) || SomeContains(word.antonyms, searchTerm) {
      hit := true;
    } else if options.includeEtymology && EtymologyHit(word, searchTerm) {
      hit := true;
    } else if options.includeIdioms && IdiomHit(word, searchTerm) {
      hit := true;
    } else {
      hit := options.includePhrases && PhraseHit(word, searchTerm);
    }
  }

  /** Every flag set in `a` is set in `b`, and the language filters agree. */
  predicate FewerFlags(a: SearchOptions, b: SearchOptions) {
    a.language == b.language
    && (a.includeEtymology ==> b.includeEtymology)
    && (a.includeIdioms ==> b.includeIdioms)
    && (a.includePhrases ==> b.includePhrases)
  }

  /** A field whose flag is off has no say: clearing it does not change the outcome. */
  lemma DisabledFieldsIgnored(w: VocabularyWord, term: string, options: SearchOptions)
    ensures !options.includeEtymology ==> (SearchHit(w, term, options) <==> SearchHit(w.(etymology := None), term, options))
    ensures !options.includeIdioms ==> (SearchHit(w, term, options) <==> SearchHit(w.(idioms := []), term, options))
    ensures !options.includePhrases ==> (SearchHit(w, term, options) <==> SearchHit(w.(phrases := []), term, options))
  {
  }

  function Rank(w: VocabularyWord): int { w.frequency.rank }

  predicate DistinctIds(ws: seq<VocabularyWord>) {
    forall i, j :: 0 <= i < j < |ws| ==> ws[i].id != ws[j].id
  }

  /** Leaving elements out keeps the ids distinct. */
  lemma {:induction false} SubseqDistinctIds(r: seq<VocabularyWord>, s: seq<VocabularyWord>)
    requires IsSubseq(r, s) && DistinctIds(s)
    ensures DistinctIds(r)
    decreases |s|
  {
    if r != [] && s != [] {
      var t := s[1..];
      assert DistinctIds(t) by {
        forall i, j | 0 <= i < j < |t| ensures t[i].id != t[j].id {
          assert t[i] == s[i + 1] && t[j] == s[j + 1];
        }
      }
      if r[0] == s[0] {
        SubseqDistinctIds(r[1..], t);
        SubseqMembers(r[1..], t);
        forall j | 0 < j < |r| ensures r[0].id != r[j].id {
          assert r[j] == r[1..][j - 1];
          assert r[j] in r[1..];
          var k :| 0 <= k < |t| && t[k] == r[j];
          assert s[k + 1] == r[j];
        }
      } else {
        SubseqDistinctIds(r, t);
      }
    }
  }

  lemma {:induction false} SubseqMembers<T>(r: seq<T>, s: seq<T>)
    requires IsSubseq(r, s)
    ensures forall x :: x in r ==> x in s
    decreases |s|
  {
    if r != [] && s != [] {
      if r[0] == s[0] {
        SubseqMembers(r[1..], s[1..]);
        assert forall x :: x in r ==> x == r[0] || x in r[1..];
      } else {
        SubseqMembers(r, s[1..]);
      }
    }
  }

  function InRankRange(language: string, minRank: int, maxRank: int): VocabularyWord -> bool {
    (w: VocabularyWord) => w.language == language && minRank <= w.frequency.rank <= maxRank
  }

  function RankedIn(language: string): VocabularyWord -> bool {
    (w: VocabularyWord) => w.language == language && w.frequency.rank > 0
  }

  function EtymologyFrom(originTerm: string, language: Option<string>): VocabularyWord -> bool {
    (w: VocabularyWord) => !LanguageExcluded(w, language) && w.etymology.Some? && Contains(Lower(w.etymology.value.origin), originTerm)
  }

  /** The rows of updateWordFrequencies' table. */
  datatype FrequencyEntry = FrequencyEntry(writingFreq: real, speechFreq: real, rank: int)

  /** A word after the frequency update: looked up by its lower-cased surface form. */
  function Refreshed(w: VocabularyWord, table: map<string, FrequencyEntry>, now: int): VocabularyWord {
    var key := Lower(w.word);
    if key in table then
      var e := table[key];
      w.(frequency := w.frequency.(writingFrequency := e.writingFreq, speechFrequency := e.speechFreq,
                                   rank := e.rank, level := GetFrequencyLevel(e.rank), lastUpdated := Some(now)))
    else w
  }

  /** The words map after refreshing the entries `ids`, one at a time. */
  function RefreshAll(m: map<string, VocabularyWord>, ids: seq<string>,
                      table: map<string, FrequencyEntry>, now: int): map<string, VocabularyWord>
  {
    if ids == [] then m
    else
      var p := RefreshAll(m, ids[..|ids| - 1], table, now);
      var id := ids[|ids| - 1];
      if id in p then p[id := Refreshed(p[id], table, now)] else p
  }

  /** Refreshing distinct ids keeps the keys, refreshes each listed word
      once from its old value and leaves the others alone. */
  lemma {:induction false} RefreshAllMeans(m: map<string, VocabularyWord>, ids: seq<string>,
                                          table: map<string, FrequencyEntry>, now: int)
    requires forall i, j :: 0 <= i < j < |ids| ==> ids[i] != ids[j]
    ensures RefreshAll(m, ids, table, now).Keys == m.Keys
    ensures forall id :: id in m && id in ids ==> RefreshAll(m, ids, table, now)[id] == Refreshed(m[id], table, now)
    ensures forall id :: id in m && id !in ids ==> RefreshAll(m, ids, table, now)[id] == m[id]
  {
    if ids != [] {
      var front := ids[..|ids| - 1];
      var last := ids[|ids| - 1];
      RefreshAllMeans(m, front, table, now);
      assert last !in front by {
        forall k | 0 <= k < |front| ensures front[k] != last {
          assert front[k] == ids[k];
        }
      }
      forall id | id in ids ensures id == last || id in front {
        var k :| 0 <= k < |ids| && ids[k] == id;
        if k < |ids| - 1 { assert front[k] == id; }
      }
    }
  }

  /** The loop of updateWordFrequencies: each listed word in turn takes the
      frequency data the table holds for it. */
  method RefreshMap(m: map<string, VocabularyWord>, ids: seq<string>,
                    table: map<string, FrequencyEntry>, now: int) returns (r: map<string, VocabularyWord>)
    requires forall i :: 0 <= i < |ids| ==> ids[i] in m
    ensures r == RefreshAll(m, ids, table, now)
  {
    r := m;
    var n := 0;
    while n < |ids|
      invariant 0 <= n <= |ids|
      invariant r == RefreshAll(m, ids[..n], table, now)
      invariant r.Keys == m.Keys
    {
      var id := ids[n];
      assert ids[..n + 1][..n] == ids[..n];
      var refreshed := RefreshFrequency(r[id], table, now);
      r := r[id := refreshed];
      n := n + 1;
    }
    assert ids[..n] == ids;
  }

  /** Refreshing every stored word keeps the store well formed: the same
      ids, in the same order, each filed under its own id. */
  lemma RefreshedStore(before: map<string, VocabularyWord>, order: seq<string>,
                       table: map<string, FrequencyEntry>, now: int)
    requires forall i :: 0 <= i < |order| ==> order[i] in before
    requires forall id :: id in before ==> id in order
    requires forall i, j :: 0 <= i < j < |order| ==> order[i] != order[j]
    requires forall id :: id in before ==> before[id].id == id
    ensures var after := RefreshAll(before, order, table, now);
      && after.Keys == before.Keys
      && (forall id :: id in after ==> after[id] == Refreshed(before[id], table, now))
      && (forall id :: id in after ==> after[id].id == id)
  {
    RefreshAllMeans(before, order, table, now);
  }

  /** The loop body of updateWordFrequencies for one word. */
  method RefreshFrequency(word: VocabularyWord, table: map<string, FrequencyEntry>, now: int) returns (r: VocabularyWord)
    ensures r == Refreshed(word, table, now)
  {
    r := word;
    var key := Lower(word.word);
    if key in table {
      var freq := table[key];
      r := word.(frequency := word.frequency.(
        writingFrequency := freq.writingFreq, speechFrequency := freq.speechFreq, rank := freq.rank,
        level := GetFrequencyLevel(freq.rank), lastUpdated := Some(now)));
    }
  }

  /** A word found in the table takes its frequencies and rank and the level
      the thresholds give that rank; a word not found is unchanged; nothing
      but the frequency data ever changes, and refreshing twice is refreshing once. */
  lemma RefreshedFacts(w: VocabularyWord, table: map<string, FrequencyEntry>, now: int)
    ensures var r := Refreshed(w, table, now);
      && r.(frequency := w.frequency) == w
      && (Lower(w.word) !in table ==> r == w)
      && (Lower(w.word) in table ==>
            && r.frequency.writingFrequency == table[Lower(w.word)].writingFreq
            && r.frequency.speechFrequency == table[Lower(w.word)].speechFreq
            && r.frequency.rank == table[Lower(w.word)].rank
            && r.frequency.level == GetFrequencyLevel(r.frequency.rank)
            && r.frequency.corpusSize == w.frequency.corpusSize
            && r.frequency.lastUpdated == Some(now))
      && Refreshed(r, table, now) == r
  {
  }

  /** The words of `ws` of a language with rank in [minRank, maxRank], ascending by rank. */
  function RangeByRank(ws: seq<VocabularyWord>, language: string, minRank: int, maxRank: int): (r: seq<VocabularyWord>)
    ensures SortedByKey(r, Rank)
    ensures forall i :: 0 <= i < |r| ==> r[i].language == language && minRank <= Rank(r[i]) <= maxRank
    ensures forall w :: w in ws && w.language == language && minRank <= Rank(w) <= maxRank ==> w in r
    ensures multiset(r) == multiset(Filter(InRankRange(language, minRank, maxRank), ws))
    ensures TiesInOrder(r, Filter(InRankRange(language, minRank, maxRank), ws), Rank)
  {
    var p := InRankRange(language, minRank, maxRank);
    SortedFilterMembers(p, ws, Rank);
    SortByKeyStable(Filter(p, ws), Rank);
    var r := SortByKey(Filter(p, ws), Rank);
    forall i | 0 <= i < |r| ensures r[i].language == language && minRank <= Rank(r[i]) <= maxRank {
      assert r[i] in r;
      assert p(r[i]);
    }
    r
  }

  /** The first `limit` words of `ws` of a language with a positive rank, ascending by rank. */
  function TopRanked(ws: seq<VocabularyWord>, language: string, limit: int): (r: seq<VocabularyWord>)
    ensures SortedByKey(r, Rank)
    ensures forall i :: 0 <= i < |r| ==> r[i].language == language && Rank(r[i]) > 0
    ensures limit >= 0 ==> |r| <= limit
    ensures forall i, x :: 0 <= i < |r| && x in ws && RankedIn(language)(x) && x !in r ==> Rank(r[i]) <= Rank(x)
    ensures limit >= 0 ==> |r| == Min(limit, |Filter(RankedIn(language), ws)|)
    ensures multiset(r) <= multiset(Filter(RankedIn(language), ws))
    ensures TiesArePrefixes(r, Filter(RankedIn(language), ws), Rank)
  {
    SortedFilterMembers(RankedIn(language), ws, Rank);
    var sorted := SortByKey(Filter(RankedIn(language), ws), Rank);
    TopRankedBound(sorted, Rank, limit);
    TakePrefixMultiset(sorted, limit);
    SortByKeyStable(Filter(RankedIn(language), ws), Rank);
    StableCut(sorted, Filter(RankedIn(language), ws), Rank, limit);
    var r := TakePrefix(sorted, limit);
    forall i | 0 <= i < |r| ensures r[i].language == language && Rank(r[i]) > 0 {
      assert r[i] == sorted[i];
      assert sorted[i] in sorted;
      assert RankedIn(language)(sorted[i]);
    }
    r
  }

  /** A prefix of a sorted list is sorted, and its keys are no larger than those of the elements left out. */
  lemma TopRankedBound<T>(sorted: seq<T>, key: T -> int, limit: int)
    requires SortedByKey(sorted, key)
    ensures SortedByKey(TakePrefix(sorted, limit), key)
    ensures forall i, x :: 0 <= i < |TakePrefix(sorted, limit)| && x in sorted && x !in TakePrefix(sorted, limit)
              ==> key(TakePrefix(sorted, limit)[i]) <= key(x)
  {
    var r := TakePrefix(sorted, limit);
    forall i, x | 0 <= i < |r| && x in sorted && x !in r ensures key(r[i]) <= key(x) {
      var j :| 0 <= j < |sorted| && sorted[j] == x;
      assert j >= |r|;
      assert r[i] == sorted[i];
    }
  }

  /* ---------------------------------------------------------------------
     The service. */

  function HasLanguage(language: string): VocabularyWord -> bool {
    (w: VocabularyWord) => w.language == language
  }

  /** A truthy language narrows to the words of that language; otherwise every word. */
  function SelectLanguage(ws: seq<VocabularyWord>, language: Option<string>): seq<VocabularyWord> {
    if language.Some? && language.value != "" then Filter(HasLanguage(language.value), ws) else ws
  }

  /** `map.set(w.id, w)` for each word in turn. */
  function AddAll(m: map<string, VocabularyWord>, ws: seq<VocabularyWord>): map<string, VocabularyWord>
    decreases |ws|
  {
    if ws == [] then m else AddAll(m, ws[..|ws| - 1])[ws[|ws| - 1].id := ws[|ws| - 1]]
  }

  lemma AddAllSnoc(m: map<string, VocabularyWord>, ws: seq<VocabularyWord>, i: int)
    requires 0 <= i < |ws|
    ensures AddAll(m, ws[..i + 1]) == AddAll(m, ws[..i])[ws[i].id := ws[i]]
  {
    assert ws[..i + 1][..i] == ws[..i];
  }

  /** After adding a list of words, an id is stored exactly when it was stored
      before or some added word has it; the entry is the last added word with
      that id, or the old entry when none has it. */
  lemma AddAllMeans(m: map<string, VocabularyWord>, ws: seq<VocabularyWord>, id: string)
    ensures id in AddAll(m, ws) <==> id in m || exists k :: 0 <= k < |ws| && ws[k].id == id
    ensures (forall k :: 0 <= k < |ws| ==> ws[k].id != id) && id in m ==> AddAll(m, ws)[id] == m[id]
    ensures forall k :: 0 <= k < |ws| && ws[k].id == id && (forall j :: k < j < |ws| ==> ws[j].id != id) ==>
      id in AddAll(m, ws) && AddAll(m, ws)[id] == ws[k]
  {
    AddAllKeys(m, ws, id);
    if id in m && forall k :: 0 <= k < |ws| ==> ws[k].id != id {
      AddAllUntouched(m, ws, id);
    }
    forall k | 0 <= k < |ws| && ws[k].id == id && (forall j :: k < j < |ws| ==> ws[j].id != id)
      ensures id in AddAll(m, ws) && AddAll(m, ws)[id] == ws[k]
    {
      AddAllLast(m, ws, k);
    }
  }

  lemma {:induction false} AddAllKeys(m: map<string, VocabularyWord>, ws: seq<VocabularyWord>, id: string)
    ensures id in AddAll(m, ws) <==> id in m || exists k :: 0 <= k < |ws| && ws[k].id == id
    decreases |ws|
  {
    if ws != [] {
      var init := ws[..|ws| - 1];
      AddAllKeys(m, init, id);
      if exists k :: 0 <= k < |init| && init[k].id == id {
        var k :| 0 <= k < |init| && init[k].id == id;
        assert ws[k] == init[k];
      }
      if exists k :: 0 <= k < |ws| && ws[k].id == id {
        var k :| 0 <= k < |ws| && ws[k].id == id;
        if k < |init| { assert init[k] == ws[k]; }
      }
    }
  }

  lemma {:induction false} AddAllUntouched(m: map<string, VocabularyWord>, ws: seq<VocabularyWord>, id: string)
    requires id in m && forall k :: 0 <= k < |ws| ==> ws[k].id != id
    ensures id in AddAll(m, ws) && AddAll(m, ws)[id] == m[id]
    decreases |ws|
  {
    if ws != [] {
      var init := ws[..|ws| - 1];
      assert forall k :: 0 <= k < |init| ==> init[k] == ws[k];
      AddAllUntouched(m, init, id);
    }
  }

  lemma {:induction false} AddAllLast(m: map<string, VocabularyWord>, ws: seq<VocabularyWord>, k: int)
    requires 0 <= k < |ws| && forall j :: k < j < |ws| ==> ws[j].id != ws[k].id
    ensures ws[k].id in AddAll(m, ws) && AddAll(m, ws)[ws[k].id] == ws[k]
    decreases |ws|
  {
    if k < |ws| - 1 {
      var init := ws[..|ws| - 1];
      assert init[k] == ws[k];
      assert forall j :: k < j < |init| ==> init[j] == ws[j];
      AddAllLast(m, init, k);
    }
  }

  /** The insertion order after `map.set(w.id, w)` for each word in turn: an
      id not yet stored goes to the end, a stored one keeps its place. */
  function OrderAfter(m: map<string, VocabularyWord>, order: seq<string>, ws: seq<VocabularyWord>): seq<string>
    decreases |ws|
  {
    if ws == [] then order
    else
      var init := ws[..|ws| - 1];
      var id := ws[|ws| - 1].id;
      if id in AddAll(m, init) then OrderAfter(m, order, init) else OrderAfter(m, order, init) + [id]
  }

  lemma OrderAfterSnoc(m: map<string, VocabularyWord>, order: seq<string>, ws: seq<VocabularyWord>, i: int)
    requires 0 <= i < |ws|
    ensures OrderAfter(m, order, ws[..i + 1]) ==
      if ws[i].id in AddAll(m, ws[..i]) then OrderAfter(m, order, ws[..i]) else OrderAfter(m, order, ws[..i]) + [ws[i].id]
  {
    assert ws[..i + 1][..i] == ws[..i];
  }

  /** Adding words never moves an id already in the order: the old order is a
      prefix of the new one, and every id after it is the id of an added word
      that was not stored before. */
  lemma {:induction false} OrderAfterExtends(m: map<string, VocabularyWord>, order: seq<string>, ws: seq<VocabularyWord>)
    ensures order <= OrderAfter(m, order, ws)
    ensures forall i :: |order| <= i < |OrderAfter(m, order, ws)| ==>
      OrderAfter(m, order, ws)[i] !in m && exists k :: 0 <= k < |ws| && ws[k].id == OrderAfter(m, order, ws)[i]
    decreases |ws|
  {
    if ws != [] {
      var init := ws[..|ws| - 1];
      var last := ws[|ws| - 1];
      OrderAfterExtends(m, order, init);
      var prev := OrderAfter(m, order, init);
      var r := OrderAfter(m, order, ws);
      forall i | |order| <= i < |r|
        ensures r[i] !in m && exists k :: 0 <= k < |ws| && ws[k].id == r[i]
      {
        if i < |prev| {
          assert r[i] == prev[i];
          var k :| 0 <= k < |init| && init[k].id == prev[i];
          assert ws[k] == init[k];
        } else {
          assert r[i] == last.id && last.id !in AddAll(m, init);
          AddAllKeys(m, init, last.id);
        }
      }
    }
  }

  /** Filing a word puts its id under its language and each of its
      categories and removes nothing already filed. */
  lemma FilingFacts(byLanguage: Index, byCategory: Index, w: VocabularyWord)
    ensures InIndex(AddToIndex(byLanguage, w.language, w.id), w.language, w.id)
    ensures forall c :: c in w.categories ==> InIndex(AddToIndexAll(byCategory, w.categories, w.id), c, w.id)
    ensures forall k, x :: InIndex(byLanguage, k, x) ==> InIndex(AddToIndex(byLanguage, w.language, w.id), k, x)
    ensures forall k, x :: InIndex(byCategory, k, x) ==> InIndex(AddToIndexAll(byCategory, w.categories, w.id), k, x)
  {
    forall c | c in w.categories ensures InIndex(AddToIndexAll(byCategory, w.categories, w.id), c, w.id) {
      AddToIndexAllFiles(byCategory, w.categories, w.id, c);
    }
    forall k, x | InIndex(byCategory, k, x) ensures InIndex(AddToIndexAll(byCategory, w.categories, w.id), k, x) {
      AddToIndexAllKeeps(byCategory, w.categories, w.id, k, x);
    }
  }

  /** The store invariant: `order` lists each key of `words` once, and
      every word is stored under its own id. */
  predicate StoreWellFormed(words: map<string, VocabularyWord>, order: seq<string>) {
    && (forall i :: 0 <= i < |order| ==> order[i] in words)
    && (forall id :: id in words ==> id in order)
    && (forall i, j :: 0 <= i < j < |order| ==> order[i] != order[j])
    && (forall id :: id in words ==> words[id].id == id)
  }

  /** Every stored word is filed under its language and each of its categories. */
  predicate Covers(words: map<string, VocabularyWord>, byLanguage: Index, byCategory: Index) {
    forall id :: id in words ==>
      && InIndex(byLanguage, words[id].language, id)
      && (forall c :: c in words[id].categories ==> InIndex(byCategory, c, id))
  }

  /** Storing a word keeps the store invariant; a new id goes to the end of the order. */
  lemma StoreAdd(words: map<string, VocabularyWord>, order: seq<string>, w: VocabularyWord)
    requires StoreWellFormed(words, order)
    ensures StoreWellFormed(words[w.id := w], if w.id in words then order else order + [w.id])
  {
  }

  /** Storing and filing a word keeps every stored word filed. */
  lemma CoversAdd(words: map<string, VocabularyWord>, byLanguage: Index, byCategory: Index, w: VocabularyWord)
    requires Covers(words, byLanguage, byCategory)
    ensures Covers(words[w.id := w], AddToIndex(byLanguage, w.language, w.id),
                   AddToIndexAll(byCategory, w.categories, w.id))
  {
    var after := words[w.id := w];
    forall id | id in after
      ensures InIndex(AddToIndex(byLanguage, w.language, w.id), after[id].language, id)
      ensures forall c :: c in after[id].categories ==> InIndex(AddToIndexAll(byCategory, w.categories, w.id), c, id)
    {
      AddToIndexMeans(byLanguage, w.language, w.id, after[id].language);
      forall c | c in after[id].categories
        ensures InIndex(AddToIndexAll(byCategory, w.categories, w.id), c, id)
      {
        if id == w.id {
          AddToIndexAllFiles(byCategory, w.categories, w.id, c);
        } else {
          AddToIndexAllKeeps(byCategory, w.categories, w.id, c, id);
        }
      }
    }
  }

  /** The formats exportWords produces in this model. */
  datatype ExportFormat = Csv | Anki

  class WordDatabaseService {
    var words: map<string, VocabularyWord>
    /** The keys of `words` in insertion order, the order a Map iterates in. */
    var order: seq<string>
    var indexByLanguage: Index
    /** Declared and cleared by rebuildIndexes, never filled. */
    var indexByFrequencyRank: map<string, seq<string>>
    var indexByCategory: Index

    /** `order` lists every key of `words` once, and every word is stored under its own id. */
    predicate Valid()
      reads this`words, this`order
    {
      StoreWellFormed(words, order)
    }

    /** Array.from(this.words.values()). */
    function Values(): (r: seq<VocabularyWord>)
      reads this`words, this`order
      requires Valid()
      ensures |r| == |order|
      ensures forall i :: 0 <= i < |order| ==> r[i] == words[order[i]]
    {
      ValuesOf(words, order)
    }

    /** Every stored word is filed under its language and each of its
        categories; stale entries may remain. */
    predicate IndexesCover()
      reads this
    {
      Covers(words, indexByLanguage, indexByCategory)
    }

    /** The indexes are exactly those rebuilt from the stored words. */
    predicate IndexesExact()
      reads this
      requires Valid()
    {
      && indexByLanguage == LanguageIndexOf(map[], Values())
      && indexByCategory == CategoryIndexOf(map[], Values())
      && indexByFrequencyRank == map[]
    }

    /** Exact indexes cover every word and file nothing else: an id is under
        a language or a category only when the stored word has it. */
    lemma ExactIndexesSound()
      requires Valid() && IndexesExact()
      ensures IndexesCover()
      ensures forall l, id :: InIndex(indexByLanguage, l, id) ==> id in words && words[id].language == l
      ensures forall c, id :: InIndex(indexByCategory, c, id) ==> id in words && c in words[id].categories
    {
      var vals := Values();
      forall id | id in words
        ensures InIndex(indexByLanguage, words[id].language, id)
        ensures forall c :: c in words[id].categories ==> InIndex(indexByCategory, c, id)
      {
        var i :| 0 <= i < |order| && order[i] == id;
        assert vals[i] == words[id];
        LanguageIndexMeans(map[], vals, words[id].language, id);
        forall c | c in words[id].categories ensures InIndex(indexByCategory, c, id) {
          CategoryIndexMeans(map[], vals, c, id);
        }
      }
      forall l, id | InIndex(indexByLanguage, l, id) ensures id in words && words[id].language == l {
        LanguageIndexMeans(map[], vals, l, id);
        var i :| 0 <= i < |vals| && vals[i].language == l && vals[i].id == id;
        assert vals[i] == words[order[i]];
      }
      forall c, id | InIndex(indexByCategory, c, id) ensures id in words && c in words[id].categories {
        CategoryIndexMeans(map[], vals, c, id);
        var i :| 0 <= i < |vals| && c in vals[i].categories && vals[i].id == id;
        assert vals[i] == words[order[i]];
      }
    }

    /** An empty store (the default vocabulary table is not part of this model). */
    constructor()
      ensures Valid() && IndexesExact()
      ensures words == map[] && order == []
    {
      words := map[];
      order := [];
      indexByLanguage := map[];
      indexByFrequencyRank := map[];
      indexByCategory := map[];
    }

    /** getWord: the stored word with this id, if any. */
    function GetWord(id: string): (r: Option<VocabularyWord>)
      reads this`words
      ensures r.Some? <==> id in words
      ensures Valid() && r.Some? ==> r.value.id == id
    {
      if id in words then Some(words[id]) else None
    }

    /** updateIndexes: file the word's id under its language and each of its categories. */
    method UpdateIndexes(w: VocabularyWord)
      modifies this`indexByLanguage, this`indexByCategory
      ensures indexByLanguage == AddToIndex(old(indexByLanguage), w.language, w.id)
      ensures indexByCategory == AddToIndexAll(old(indexByCategory), w.categories, w.id)
    {
      indexByLanguage := FileUnder(indexByLanguage, w.language, w.id);
      indexByCategory := FileUnderAll(indexByCategory, w.categories, w.id);
    }

    /** addWord: store the word under its id (no validation; an existing
        entry is replaced in place) and file it in the indexes. Entries filed
        for a replaced word are not removed. */
    method AddWord(w: VocabularyWord)
      modifies this`words, this`order, this`indexByLanguage, this`indexByCategory
      requires Valid()
      ensures Valid()
      ensures words == old(words)[w.id := w]
      ensures order == if w.id in old(words) then old(order) else old(order) + [w.id]
      ensures indexByLanguage == AddToIndex(old(indexByLanguage), w.language, w.id)
      ensures indexByCategory == AddToIndexAll(old(indexByCategory), w.categories, w.id)
      ensures old(IndexesCover()) ==> IndexesCover()
    {
      StoreAdd(words, order, w);
      if IndexesCover() {
        CoversAdd(words, indexByLanguage, indexByCategory, w);
      }
      order := if w.id in words then order else order + [w.id];
      words := words[w.id := w];
      UpdateIndexes(w);
    }

    /** rebuildIndexes: clear the indexes and file every stored word again. */
    method RebuildIndexes()
      modifies this
      requires Valid()
      ensures words == old(words) && order == old(order)
      ensures Valid() && IndexesExact()
    {
      indexByLanguage := map[];
      indexByFrequencyRank := map[];
      indexByCategory := map[];
      ghost var vals := Values();
      var i := 0;
      while i < |order|
        invariant 0 <= i <= |order|
        invariant words == old(words) && order == old(order) && Valid()
        invariant indexByFrequencyRank == map[]
        invariant indexByLanguage == LanguageIndexOf(map[], vals[..i])
        invariant indexByCategory == CategoryIndexOf(map[], vals[..i])
      {
        var w := words[order[i]];
        UpdateIndexes(w);
        IndexesOfStep(map[], vals, i);
        i := i + 1;
      }
      assert vals[..i] == vals;
    }

    /** The stored words carry distinct ids. */
    lemma ValuesDistinct()
      requires Valid()
      ensures DistinctIds(Values())
    {
      var vals := Values();
      forall i, j | 0 <= i < j < |vals| ensures vals[i].id != vals[j].id {
        assert vals[i].id == order[i] && vals[j].id == order[j];
      }
    }

    /** searchWords over the stored words in insertion order. */
    method SearchWords(query: string, options: SearchOptions) returns (results: seq<VocabularyWord>)
      requires Valid()
      ensures results == Filter(SearchMatcher(Lower(query), options), Values())
    {
      results := SearchList(Values(), Lower(query), options);
    }

    /** Search results keep insertion order, hold no word twice, each passes
        the language filter and hits an enabled field, and every stored word
        that does is among them. */
    lemma SearchResultsFacts(query: string, options: SearchOptions)
      requires Valid()
      ensures var r := Filter(SearchMatcher(Lower(query), options), Values());
        && IsSubseq(r, Values())
        && DistinctIds(r)
        && (forall i :: 0 <= i < |r| ==> !LanguageExcluded(r[i], options.language) && SearchHit(r[i], Lower(query), options))
        && (forall id :: id in words && SearchHit(words[id], Lower(query), options) ==> words[id] in r)
    {
      var vals := Values();
      var r := Filter(SearchMatcher(Lower(query), options), vals);
      FilterIsSubseq(SearchMatcher(Lower(query), options), vals);
      ValuesDistinct();
      SubseqDistinctIds(r, vals);
      forall id | id in words && SearchHit(words[id], Lower(query), options) ensures words[id] in r {
        var i :| 0 <= i < |order| && order[i] == id;
        assert vals[i] == words[id];
      }
    }

    /** Setting more flags never loses a result. */
    lemma SearchFlagsMonotone(query: string, a: SearchOptions, b: SearchOptions, w: VocabularyWord)
      requires Valid() && FewerFlags(a, b)
      requires w in Filter(SearchMatcher(Lower(query), a), Values())
      ensures w in Filter(SearchMatcher(Lower(query), b), Values())
    {
    }

    /** Every stored word is in Values(). */
    lemma StoredInValues()
      requires Valid()
      ensures forall id :: id in words ==> words[id] in Values()
    {
      forall id | id in words ensures words[id] in Values() {
        var i :| 0 <= i < |order| && order[i] == id;
        assert Values()[i] == words[id];
      }
    }

    /** getWordsByFrequencyRange: the words of a language whose rank lies in
        [minRank, maxRank], ascending by rank. */
    function GetWordsByFrequencyRange(language: string, minRank: int, maxRank: int): (r: seq<VocabularyWord>)
      reads this`words, this`order
      requires Valid()
      ensures SortedByKey(r, Rank)
      ensures forall i :: 0 <= i < |r| ==> r[i].language == language && minRank <= Rank(r[i]) <= maxRank
      ensures forall id :: id in words && words[id].language == language && minRank <= Rank(words[id]) <= maxRank
                ==> words[id] in r
      ensures multiset(r) == multiset(Filter(InRankRange(language, minRank, maxRank), Values()))
      ensures TiesInOrder(r, Filter(InRankRange(language, minRank, maxRank), Values()), Rank)
    {
      StoredInValues();
      RangeByRank(Values(), language, minRank, maxRank)
    }

    /** getMostFrequentWords: the first `limit` ranked words of a language,
        ascending by rank. */
    function GetMostFrequentWords(language: string, limit: int): (r: seq<VocabularyWord>)
      reads this`words, this`order
      requires Valid()
      ensures SortedByKey(r, Rank)
      ensures forall i :: 0 <= i < |r| ==> r[i].language == language && Rank(r[i]) > 0
      ensures limit >= 0 ==> |r| <= limit
      ensures forall i, x :: 0 <= i < |r| && x in Values() && RankedIn(language)(x) && x !in r ==> Rank(r[i]) <= Rank(x)
      ensures limit >= 0 ==> |r| == Min(limit, |Filter(RankedIn(language), Values())|)
      ensures multiset(r) <= multiset(Filter(RankedIn(language), Values()))
      ensures TiesArePrefixes(r, Filter(RankedIn(language), Values()), Rank)
    {
      TopRanked(Values(), language, limit)
    }

    /** getWordsByEtymology: the words, in insertion order, whose etymology
        origin contains the lower-cased origin, within the language when one is given. */
    function GetWordsByEtymology(origin: string, language: Option<string>): (r: seq<VocabularyWord>)
      reads this`words, this`order
      requires Valid()
      ensures IsSubseq(r, Values())
      ensures forall i :: 0 <= i < |r| ==>
        && !LanguageExcluded(r[i], language)
        && r[i].etymology.Some? && Contains(Lower(r[i].etymology.value.origin), Lower(origin))
      ensures forall i :: 0 <= i < |order| && EtymologyFrom(Lower(origin), language)(words[order[i]]) ==> words[order[i]] in r
    {
      FilterIsSubseq(EtymologyFrom(Lower(origin), language), Values());
      Filter(EtymologyFrom(Lower(origin), language), Values())
    }

    /** getIdiomsForWord: the idioms of the word with this id; none for an unknown id. */
    function GetIdiomsForWord(wordId: string): (r: seq<Idiom>)
      reads this`words
      ensures wordId !in words ==> r == []
      ensures wordId in words ==> r == words[wordId].idioms
    {
      match GetWord(wordId)
      case Some(w) => w.idioms
      case None => []
    }

    /** getPhrasesForWord: the phrases of the word with this id; none for an unknown id. */
    function GetPhrasesForWord(wordId: string): (r: seq<Phrase>)
      reads this`words
      ensures wordId !in words ==> r == []
      ensures wordId in words ==> r == words[wordId].phrases
    {
      match GetWord(wordId)
      case Some(w) => w.phrases
      case None => []
    }

    /** getCollocationsForWord: the collocations of the word with this id; none for an unknown id. */
    function GetCollocationsForWord(wordId: string): (r: seq<Collocation>)
      reads this`words
      ensures wordId !in words ==> r == []
      ensures wordId in words ==> r == words[wordId].collocations
    {
      match GetWord(wordId)
      case Some(w) => w.collocations
      case None => []
    }

    /** updateWordFrequencies: refresh every stored word from the table, in
        place, then rebuild the indexes. */
    method UpdateWordFrequencies(table: map<string, FrequencyEntry>, now: int)
      modifies this
      requires Valid()
      ensures Valid() && IndexesExact()
      ensures order == old(order) && words.Keys == old(words).Keys
      ensures forall id :: id in words ==> words[id] == Refreshed(old(words)[id], table, now)
    {
      RefreshWords(table, now);
      RebuildIndexes();
    }

    /** The loop of updateWordFrequencies over the stored words. */
    method RefreshWords(table: map<string, FrequencyEntry>, now: int)
      modifies this`words
      requires Valid()
      ensures Valid() && order == old(order) && words.Keys == old(words).Keys
      ensures forall id :: id in words ==> words[id] == Refreshed(old(words)[id], table, now)
    {
      ghost var before := words;
      words := RefreshMap(words, order, table, now);
      RefreshedStore(before, order, table, now);
    }

    /** `language ? filter(w => w.language === language) : all`, over the stored words. */
    function Selected(language: Option<string>): (r: seq<VocabularyWord>)
      reads this`words, this`order
      requires Valid()
      ensures IsSubseq(r, Values())
      ensures language.Some? && language.value != "" ==>
        && (forall i :: 0 <= i < |r| ==> r[i].language == language.value)
        && (forall i :: 0 <= i < |order| && words[order[i]].language == language.value ==> words[order[i]] in r)
      ensures language.None? || language.value == "" ==> r == Values()
    {
      if language.Some? && language.value != "" then
        FilterIsSubseq(HasLanguage(language.value), Values());
        SelectLanguage(Values(), language)
      else
        IsSubseqRefl(Values());
        SelectLanguage(Values(), language)
    }

    /** getWordStatistics over the selected words. */
    method GetWordStatistics(language: Option<string>) returns (stats: WordStatistics)
      requires Valid()
      ensures stats == StatisticsOf(Selected(language))
    {
      stats := ComputeStatistics(Selected(language));
    }

    /** exportWords for the csv and anki formats, over the selected words. */
    function ExportWords(format: ExportFormat, language: Option<string>, enc: Encoders): string
      reads this`words, this`order
      requires Valid()
    {
      match format
      case Csv => ServiceCsv(Selected(language), enc)
      case Anki => ExportToAnki(Selected(language))
    }

    /** The csv export is the header line and one line per selected word; the
        anki export is one line per selected word (nothing for none). */
    lemma ExportWordsFormats(format: ExportFormat, language: Option<string>, enc: Encoders)
      requires Valid()
      ensures var ws := Selected(language);
        format == Csv && CleanExport(ws, enc) ==>
          Lines(ExportWords(format, language, enc)) == [Join(ServiceHeaders, ",")] + Rows(ws, ServiceRow(enc))
      ensures var ws := Selected(language);
        format == Anki && ws == [] ==> ExportWords(format, language, enc) == ""
      ensures var ws := Selected(language);
        format == Anki && ws != [] && (forall k :: 0 <= k < |ws| ==> '\n' !in AnkiLine(ws[k])) ==>
          && |Split(ExportWords(format, language, enc), '\n')| == |ws|
          && forall k :: 0 <= k < |ws| ==> Split(ExportWords(format, language, enc), '\n')[k] == AnkiLine(ws[k])
    {
      var ws := Selected(language);
      if format == Csv && CleanExport(ws, enc) {
        ServiceCsvLines(ws, enc);
      }
      if format == Anki && (forall k :: 0 <= k < |ws| ==> '\n' !in AnkiLine(ws[k])) {
        ExportToAnkiLines(ws);
      }
    }

    /** Importing the csv export yields one word per selected word, each
        rebuilt from the columns the importer reads back. */
    lemma ExportedCsvReimports(language: Option<string>, enc: Encoders, importLanguage: string, ids: nat -> string, now: int)
      requires Valid()
      requires CleanExport(Selected(language), enc)
      requires forall k :: 0 <= k < |Selected(language)| ==>
        Selected(language)[k].word != "" && Selected(language)[k].translation != ""
      ensures ReimportedAs(ImportedLines(Lines(ExportWords(Csv, language, enc)), importLanguage, ids, now),
                           Selected(language), importLanguage, ids, now)
    {
      ServiceCsvRoundTrip(Selected(language), enc, importLanguage, ids, now);
    }

    /** importWords for the csv format: parse, then add every parsed word in
        order; the count is the number of words parsed. */
    method ImportWords(data: string, language: string, ids: nat -> string, now: int) returns (imported: int)
      modifies this`words, this`order, this`indexByLanguage, this`indexByCategory
      requires Valid()
      ensures Valid()
      ensures imported == |ImportedLines(Lines(data), language, ids, now)|
      ensures words == AddAll(old(words), ImportedLines(Lines(data), language, ids, now))
      ensures order == OrderAfter(old(words), old(order), ImportedLines(Lines(data), language, ids, now))
      ensures indexByLanguage == LanguageIndexOf(old(indexByLanguage), ImportedLines(Lines(data), language, ids, now))
      ensures indexByCategory == CategoryIndexOf(old(indexByCategory), ImportedLines(Lines(data), language, ids, now))
      ensures old(IndexesCover()) ==> IndexesCover()
    {
      var csvWords := ImportFromCSV(data, language, ids, now);
      imported := AddWords(csvWords);
    }

    /** The loop of importWords: addWord for every parsed word in order,
        counting them. */
    method AddWords(ws: seq<VocabularyWord>) returns (added: int)
      modifies this`words, this`order, this`indexByLanguage, this`indexByCategory
      requires Valid()
      ensures Valid()
      ensures added == |ws|
      ensures words == AddAll(old(words), ws)
      ensures order == OrderAfter(old(words), old(order), ws)
      ensures indexByLanguage == LanguageIndexOf(old(indexByLanguage), ws)
      ensures indexByCategory == CategoryIndexOf(old(indexByCategory), ws)
      ensures old(IndexesCover()) ==> IndexesCover()
    {
      added := 0;
      ghost var before := words;
      ghost var beforeOrder := order;
      ghost var byLanguage := indexByLanguage;
      ghost var byCategory := indexByCategory;
      ghost var covered := IndexesCover();
      var i := 0;
      while i < |ws|
        invariant 0 <= i <= |ws| && added == i
        invariant Valid()
        invariant words == AddAll(before, ws[..i])
        invariant order == OrderAfter(before, beforeOrder, ws[..i])
        invariant indexByLanguage == LanguageIndexOf(byLanguage, ws[..i])
        invariant indexByCategory == CategoryIndexOf(byCategory, ws[..i])
        invariant covered ==> IndexesCover()
      {
        AddWord(ws[i]);
        AddAllSnoc(before, ws, i);
        OrderAfterSnoc(before, beforeOrder, ws, i);
        IndexesOfStep(byLanguage, ws, i);
        IndexesOfStep(byCategory, ws, i);
        added := added + 1;
        i := i + 1;
      }
      assert ws[..i] == ws;
    }
  }
}
