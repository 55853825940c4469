/** The vocabulary records and the free functions of src/lib/vocabulary.ts:
    the factory with its defaults, the conjunctive filter, the category list,
    related-word suggestions and the rank-to-level table (CSV import and
    export are in VocabularyCsv). Identifiers and the current time are
    parameters. */
module Vocabulary {
  import opened Collections
  import opened Text

  datatype FrequencyLevel = VeryCommon | Common | Uncommon | Rare | Archaic

  datatype FrequencyData = FrequencyData(
    writingFrequency: real,   // per million words of written text
    speechFrequency: real,    // per million words of speech
    rank: int,                // 1 = most common; 0 = unknown
    level: FrequencyLevel,
    corpusSize: Option<int>,
    lastUpdated: Option<int>)

  datatype Example = Example(
    sentence: string,
    translation: string,
    context: Option<string>,
    source: Option<string>,
    difficulty: Option<string>)

  datatype Etymology = Etymology(
    origin: string,
    originalForm: Option<string>,
    meaningEvolution: string,
    firstKnownUse: Option<string>,
    relatedWords: Option<seq<string>>,
    linguisticFamily: Option<string>)

  datatype Idiom = Idiom(
    id: string, phrase: string, meaning: string, usage: string, example: string,
    translation: string, difficulty: string, culturalSignificance: Option<string>)

  datatype Phrase = Phrase(
    id: string, phrase: string, kind: string, meaning: string, usage: string,
    example: string, translation: string, register: string)

  datatype Collocation = Collocation(
    id: string, phrase: string, strength: string, frequency: real, example: string,
    translation: string, notes: Option<string>)

  datatype Inflection = Inflection(form: string, kind: string, usage: string, example: Option<string>)

  datatype DerivedForm = DerivedForm(word: string, partOfSpeech: string, meaning: string, morphologicalProcess: string)

  datatype Morphology = Morphology(
    root: Option<string>,
    prefix: Option<seq<string>>,
    suffix: Option<seq<string>>,
    inflections: Option<seq<Inflection>>,
    derivedForms: Option<seq<DerivedForm>>)

  datatype CulturalContext = CulturalContext(
    context: string, significance: string, usage: string,
    region: Option<string>, timesPeriod: Option<string>, examples: seq<string>)

  /** A vocabulary entry. Part of speech, difficulty, register and emotional
      connotation are open strings: the CSV importer stores whatever text a
      cell holds in them. */
  datatype VocabularyWord = VocabularyWord(
    id: string,
    word: string,
    translation: string,
    language: string,
    pronunciation: Option<string>,
    partOfSpeech: string,
    difficulty: string,
    frequency: FrequencyData,
    categories: seq<string>,
    examples: seq<Example>,
    synonyms: seq<string>,
    antonyms: seq<string>,
    etymology: Option<Etymology>,
    idioms: seq<Idiom>,
    phrases: seq<Phrase>,
    collocations: seq<Collocation>,
    notes: Option<string>,
    isFavorite: bool,
    dateAdded: int,
    dateModified: int,
    audioUrl: Option<string>,
    imageUrl: Option<string>,
    morphology: Option<Morphology>,
    semanticField: Option<seq<string>>,
    register: Option<string>,
    emotionalConnotation: Option<string>,
    culturalContext: Option<seq<CulturalContext>>)

  /** The argument of createVocabularyWord: word, translation and language are
      required; every other field is either supplied (`Some`) or left to the
      default (`None`). */
  datatype WordDraft = WordDraft(
    id: Option<string>,
    word: string,
    translation: string,
    language: string,
    pronunciation: Option<string>,
    partOfSpeech: Option<string>,
    difficulty: Option<string>,
    frequency: Option<FrequencyData>,
    categories: Option<seq<string>>,
    examples: Option<seq<Example>>,
    synonyms: Option<seq<string>>,
    antonyms: Option<seq<string>>,
    etymology: Option<Etymology>,
    idioms: Option<seq<Idiom>>,
    phrases: Option<seq<Phrase>>,
    collocations: Option<seq<Collocation>>,
    notes: Option<string>,
    isFavorite: Option<bool>,
    dateAdded: Option<int>,
    dateModified: Option<int>,
    audioUrl: Option<string>,
    imageUrl: Option<string>,
    morphology: Option<Morphology>,
    semanticField: Option<seq<string>>,
    register: Option<string>,
    emotionalConnotation: Option<string>,
    culturalContext: Option<seq<CulturalContext>>)

  /** A draft that supplies only the three required fields. */
  function MinimalDraft(word: string, translation: string, language: string): WordDraft {
    WordDraft(None, word, translation, language, None, None, None, None, None, None, None, None,
              None, None, None, None, None, None, None, None, None, None, None, None, None, None, None)
  }

  const DefaultCorpusSize: int := 1000000

  function DefaultFrequency(now: int): FrequencyData {
    FrequencyData(0.0, 0.0, 0, Common, Some(DefaultCorpusSize), Some(now))
  }

  /** createVocabularyWord: the defaults, overridden by every supplied field.
      `freshId` stands for generateId() and `now` for the current time. */
  function CreateVocabularyWord(d: WordDraft, freshId: string, now: int): (r: VocabularyWord)
    ensures r.word == d.word && r.translation == d.translation && r.language == d.language
    ensures r.id == (if d.id.Some? then d.id.value else freshId)
    ensures d.categories.None? ==> r.categories == []
    ensures d.categories.Some? ==> r.categories == d.categories.value
    ensures d.examples.None? ==> r.examples == []
    ensures d.examples.Some? ==> r.examples == d.examples.value
    ensures d.synonyms.None? ==> r.synonyms == []
    ensures d.synonyms.Some? ==> r.synonyms == d.synonyms.value
    ensures d.antonyms.None? ==> r.antonyms == []
    ensures d.antonyms.Some? ==> r.antonyms == d.antonyms.value
    ensures d.idioms.None? ==> r.idioms == []
    ensures d.idioms.Some? ==> r.idioms == d.idioms.value
    ensures d.phrases.None? ==> r.phrases == []
    ensures d.phrases.Some? ==> r.phrases == d.phrases.value
    ensures d.collocations.None? ==> r.collocations == []
    ensures d.collocations.Some? ==> r.collocations == d.collocations.value
    ensures d.isFavorite.None? ==> !r.isFavorite
    ensures d.isFavorite.Some? ==> r.isFavorite == d.isFavorite.value
    ensures d.frequency.None? ==> r.frequency == FrequencyData(0.0, 0.0, 0, Common, Some(1000000), Some(now))
    ensures d.frequency.Some? ==> r.frequency == d.frequency.value
    ensures d.dateAdded.None? ==> r.dateAdded == now
    ensures d.dateAdded.Some? ==> r.dateAdded == d.dateAdded.value
    ensures d.dateModified.None? ==> r.dateModified == now
    ensures d.dateModified.Some? ==> r.dateModified == d.dateModified.value
    ensures d.partOfSpeech.None? ==> r.partOfSpeech == "noun"
    ensures d.partOfSpeech.Some? ==> r.partOfSpeech == d.partOfSpeech.value
    ensures d.difficulty.None? ==> r.difficulty == "beginner"
    ensures d.difficulty.Some? ==> r.difficulty == d.difficulty.value
    ensures r.register == (if d.register.Some? then d.register else Some("neutral"))
    ensures r.emotionalConnotation == (if d.emotionalConnotation.Some? then d.emotionalConnotation else Some("neutral"))
    ensures r.pronunciation == d.pronunciation && r.etymology == d.etymology && r.notes == d.notes
    ensures r.audioUrl == d.audioUrl && r.imageUrl == d.imageUrl && r.morphology == d.morphology
    ensures r.semanticField == d.semanticField && r.culturalContext == d.culturalContext
  {
    VocabularyWord(
      d.id.GetOr(freshId), d.word, d.translation, d.language, d.pronunciation,
      d.partOfSpeech.GetOr("noun"), d.difficulty.GetOr("beginner"),
      d.frequency.GetOr(DefaultFrequency(now)),
      d.categories.GetOr([]), d.examples.GetOr([]), d.synonyms.GetOr([]), d.antonyms.GetOr([]),
      d.etymology, d.idioms.GetOr([]), d.phrases.GetOr([]), d.collocations.GetOr([]),
      d.notes, d.isFavorite.GetOr(false), d.dateAdded.GetOr(now), d.dateModified.GetOr(now),
      d.audioUrl, d.imageUrl, d.morphology, d.semanticField,
      if d.register.Some? then d.register else Some("neutral"),
      if d.emotionalConnotation.Some? then d.emotionalConnotation else Some("neutral"),
      d.culturalContext)
  }

  /** A word made from the three required fields alone has empty collections, no
      favourite mark, rank 0, both dates `now`, and the noun/beginner/neutral defaults. */
  lemma MinimalWordDefaults(word: string, translation: string, language: string, freshId: string, now: int)
    ensures var w := CreateVocabularyWord(MinimalDraft(word, translation, language), freshId, now);
            && w.id == freshId && w.word == word && w.translation == translation && w.language == language
            && w.categories == [] && w.examples == [] && w.synonyms == [] && w.antonyms == []
            && w.idioms == [] && w.phrases == [] && w.collocations == []
            && !w.isFavorite && w.frequency.rank == 0 && w.dateAdded == now && w.dateModified == now
            && w.partOfSpeech == "noun" && w.difficulty == "beginner"
            && w.register == Some("neutral") && w.emotionalConnotation == Some("neutral")
            && w.pronunciation.None? && w.etymology.None?
  {
  }

  /** Every field of a word can be supplied: drafting a word back from itself
      reproduces it, whatever id and time the factory is given. */
  function DraftOf(w: VocabularyWord): WordDraft {
    WordDraft(Some(w.id), w.word, w.translation, w.language, w.pronunciation, Some(w.partOfSpeech),
              Some(w.difficulty), Some(w.frequency), Some(w.categories), Some(w.examples),
              Some(w.synonyms), Some(w.antonyms), w.etymology, Some(w.idioms), Some(w.phrases),
              Some(w.collocations), w.notes, Some(w.isFavorite), Some(w.dateAdded), Some(w.dateModified),
              w.audioUrl, w.imageUrl, w.morphology, w.semanticField, w.register, w.emotionalConnotation,
              w.culturalContext)
  }

  lemma SuppliedFieldsOverride(w: VocabularyWord, freshId: string, now: int)
    requires w.register.Some? && w.emotionalConnotation.Some?
    ensures CreateVocabularyWord(DraftOf(w), freshId, now) == w
  {
  }

  // ---------------------------------------------------------------- filtering

  /** The filters of filterVocabulary; `None` is an absent key. */
  datatype VocabularyFilter = VocabularyFilter(
    language: Option<string>,
    difficulty: Option<seq<string>>,
    partOfSpeech: Option<seq<string>>,
    categories: Option<seq<string>>,
    favorites: Option<bool>,
    search: Option<string>)

  predicate SharesCategory(w: VocabularyWord, cats: seq<string>) {
    exists i :: 0 <= i < |cats| && cats[i] in w.categories
  }

  /** The lower-cased query occurs in the word, its translation or a category. */
  predicate MatchesSearch(w: VocabularyWord, q: string) {
    Contains(Lower(w.word), q) || Contains(Lower(w.translation), q) || SomeContains(w.categories, q)
  }

  /** The callback of filterVocabulary, early returns in source order. An empty
      language or search string is falsy and filters nothing; an empty list is
      truthy and filters everything out. */
  predicate KeepWord(w: VocabularyWord, f: VocabularyFilter) {
    if f.language.Some? && f.language.value != "" && w.language != f.language.value then false
    else if f.difficulty.Some? && w.difficulty !in f.difficulty.value then false
    else if f.partOfSpeech.Some? && w.partOfSpeech !in f.partOfSpeech.value then false
    else if f.categories.Some? && !SharesCategory(w, f.categories.value) then false
    else if f.favorites == Some(true) && !w.isFavorite then false
    else if f.search.Some? && f.search.value != "" then MatchesSearch(w, Lower(f.search.value))
    else true
  }

  /** Every supplied filter holds: the conjunction the early returns implement. */
  predicate SatisfiesAll(w: VocabularyWord, f: VocabularyFilter) {
    && (f.language.Some? && f.language.value != "" ==> w.language == f.language.value)
    && (f.difficulty.Some? ==> w.difficulty in f.difficulty.value)
    && (f.partOfSpeech.Some? ==> w.partOfSpeech in f.partOfSpeech.value)
    && (f.categories.Some? ==> SharesCategory(w, f.categories.value))
    && (f.favorites == Some(true) ==> w.isFavorite)
    && (f.search.Some? && f.search.value != "" ==> MatchesSearch(w, Lower(f.search.value)))
  }

  lemma KeepWordIsConjunction(w: VocabularyWord, f: VocabularyFilter)
    ensures KeepWord(w, f) <==> SatisfiesAll(w, f)
  {
  }

  /** filterVocabulary: the words meeting every supplied filter, in their order. */
  function FilterVocabulary(words: seq<VocabularyWord>, f: VocabularyFilter): (r: seq<VocabularyWord>)
    ensures IsSubseq(r, words)
    ensures forall i :: 0 <= i < |r| ==> SatisfiesAll(r[i], f)
    ensures forall i :: 0 <= i < |words| && SatisfiesAll(words[i], f) ==> words[i] in r
    ensures forall w :: multiset(r)[w] == if SatisfiesAll(w, f) then multiset(words)[w] else 0
  {
    var p := (w: VocabularyWord) => KeepWord(w, f);
    FilterIsSubseq(p, words);
    forall w ensures multiset(Filter(p, words))[w] == if SatisfiesAll(w, f) then multiset(words)[w] else 0 {
      FilterMultiset(p, words, w);
      KeepWordIsConjunction(w, f);
    }
    forall i | 0 <= i < |words| ensures KeepWord(words[i], f) <==> SatisfiesAll(words[i], f) {
      KeepWordIsConjunction(words[i], f);
    }
    var r := Filter(p, words);
    forall i | 0 <= i < |r| ensures SatisfiesAll(r[i], f) {
      KeepWordIsConjunction(r[i], f);
    }
    r
  }

  /** With no filter key set every word is kept. */
  lemma EmptyFilterKeepsAll(words: seq<VocabularyWord>)
    ensures FilterVocabulary(words, VocabularyFilter(None, None, None, None, None, None)) == words
  {
    FilterAll((w: VocabularyWord) => KeepWord(w, VocabularyFilter(None, None, None, None, None, None)), words);
  }

  // --------------------------------------------------------------- categories

  /** The categories of the words, as a set. */
  function CategorySet(words: seq<VocabularyWord>): set<string>
    decreases |words|
  {
    if words == [] then {}
    else CategorySet(words[..|words| - 1]) + Elements(words[|words| - 1].categories)
  }

  function Elements(s: seq<string>): (r: set<string>)
    ensures forall x :: x in r <==> x in s
  {
    set i | 0 <= i < |s| :: s[i]
  }

  lemma {:induction false} CategorySetMeans(words: seq<VocabularyWord>, c: string)
    ensures c in CategorySet(words) <==> exists i :: 0 <= i < |words| && c in words[i].categories
    decreases |words|
  {
    if words != [] {
      var init := words[..|words| - 1];
      CategorySetMeans(init, c);
      if exists i :: 0 <= i < |init| && c in init[i].categories {
        var i :| 0 <= i < |init| && c in init[i].categories;
        assert words[i] == init[i];
      }
      if exists i :: 0 <= i < |words| && c in words[i].categories {
        var i :| 0 <= i < |words| && c in words[i].categories;
        if i < |init| { assert init[i] == words[i]; }
      }
    }
  }

  predicate StrictlySorted(s: seq<string>) {
    forall i, j :: 0 <= i < j < |s| ==> Less(s[i], s[j])
  }

  /** Inserts `x` into a strictly sorted list of strings, dropping it if present. */
  function InsertString(x: string, s: seq<string>): (r: seq<string>)
    requires StrictlySorted(s)
    ensures StrictlySorted(r)
    ensures forall y :: y in r <==> y == x || y in s
    decreases |s|
  {
    if s == [] then [x]
    else if x == s[0] then s
    else if Less(x, s[0]) then
      LessAll(x, s);
      [x] + s
    else
      LessTotal(x, s[0]);
      var t := InsertString(x, s[1..]);
      assert forall j :: 0 <= j < |t| ==> Less(s[0], t[j]) by {
        forall j | 0 <= j < |t| ensures Less(s[0], t[j]) {
          assert t[j] in t;
          if t[j] != x {
            var k :| 0 <= k < |s[1..]| && s[1..][k] == t[j];
            assert s[k + 1] == t[j];
          }
        }
      }
      [s[0]] + t
  }

  lemma LessAll(x: string, s: seq<string>)
    requires StrictlySorted(s) && s != [] && Less(x, s[0])
    ensures forall j :: 0 <= j < |s| ==> Less(x, s[j])
  {
    forall j | 0 < j < |s| ensures Less(x, s[j]) {
      LessTransitive(x, s[0], s[j]);
    }
  }

  /** getCategories: every category of every word once, in the code-unit order
      that Array.prototype.sort gives strings. The Set is filled word by word,
      category by category. */
  method GetCategories(words: seq<VocabularyWord>) returns (r: seq<string>)
    ensures StrictlySorted(r)
    ensures forall c :: c in r <==> c in CategorySet(words)
    ensures forall c :: c in r <==> exists i :: 0 <= i < |words| && c in words[i].categories
  {
    r := [];
    var i := 0;
    while i < |words|
      invariant 0 <= i <= |words|
      invariant StrictlySorted(r)
      invariant forall c :: c in r <==> c in CategorySet(words[..i])
    {
      var cats := words[i].categories;
      var j := 0;
      while j < |cats|
        invariant 0 <= j <= |cats|
        invariant StrictlySorted(r)
        invariant forall c :: c in r <==> c in CategorySet(words[..i]) || c in cats[..j]
      {
        r := InsertString(cats[j], r);
        assert cats[..j + 1] == cats[..j] + [cats[j]];
        j := j + 1;
      }
      assert words[..i + 1][..i] == words[..i];
      assert cats[..j] == cats;
      i := i + 1;
    }
    assert words[..i] == words;
    forall c ensures c in r <==> exists k :: 0 <= k < |words| && c in words[k].categories {
      CategorySetMeans(words, c);
    }
  }

  /** A strictly sorted list has no repeated entry. */
  lemma StrictlySortedDistinct(s: seq<string>, i: int, j: int)
    requires StrictlySorted(s) && 0 <= i < j < |s|
    ensures s[i] != s[j]
  {
    LessIrreflexive(s[i]);
  }

  // ------------------------------------------------------------- suggestions

  const DifficultyLevels: seq<string> := ["beginner", "intermediate", "advanced", "native"]

  /** Array.prototype.indexOf: the first position of `x`, or -1. */
  function IndexOf(s: seq<string>, x: string): (r: int)
    ensures -1 <= r < |s|
    ensures r == -1 <==> x !in s
    ensures r >= 0 ==> s[r] == x && forall k :: 0 <= k < r ==> s[k] != x
    decreases |s|
  {
    if s == [] then -1
    else if s[0] == x then 0
    else
      var k := IndexOf(s[1..], x);
      if k == -1 then -1 else k + 1
  }

  function Abs(n: int): int { if n < 0 then -n else n }

  /** How many of `w`'s categories (with repetitions) the target also has. */
  function CommonCategories(w: VocabularyWord, target: VocabularyWord): nat {
    |Filter((c: string) => c in target.categories, w.categories)|
  }

  /** The relatedness score of suggestRelatedWords: 3 per shared category,
      up to 2 for close difficulty, 1 for the same part of speech. */
  function Score(target: VocabularyWord, w: VocabularyWord): (r: int)
    ensures r >= 0
    ensures r >= 3 * CommonCategories(w, target)
    ensures w.partOfSpeech == target.partOfSpeech ==> r >= 1
    ensures w.difficulty == target.difficulty ==> r >= 2
  {
    var distance := Abs(IndexOf(DifficultyLevels, target.difficulty) - IndexOf(DifficultyLevels, w.difficulty));
    3 * CommonCategories(w, target) + Max(0, 2 - distance) + (if w.partOfSpeech == target.partOfSpeech then 1 else 0)
  }

  predicate IsCandidate(target: VocabularyWord, w: VocabularyWord) {
    w.id != target.id && Score(target, w) > 0
  }

  function Candidates(target: VocabularyWord, all: seq<VocabularyWord>): seq<VocabularyWord> {
    Filter((w: VocabularyWord) => IsCandidate(target, w), all)
  }

  function NegatedScore(target: VocabularyWord): VocabularyWord -> int {
    (w: VocabularyWord) => -Score(target, w)
  }

  /** suggestRelatedWords: the other words with a positive score, best first
      (ties in input order), cut to `limit` as slice(0, limit) does. */
  function SuggestRelatedWords(target: VocabularyWord, all: seq<VocabularyWord>, limit: int): (r: seq<VocabularyWord>)
    ensures forall i :: 0 <= i < |r| ==> r[i] in all && IsCandidate(target, r[i])
    ensures forall i, j :: 0 <= i < j < |r| ==> Score(target, r[i]) >= Score(target, r[j])
    ensures limit >= 0 ==> |r| == Min(limit, |Candidates(target, all)|)
    ensures multiset(r) <= multiset(Candidates(target, all))
    ensures TiesArePrefixes(r, Candidates(target, all), NegatedScore(target))
  {
    var sorted := SortByKey(Candidates(target, all), NegatedScore(target));
    SortByKeyStable(Candidates(target, all), NegatedScore(target));
    StableCut(sorted, Candidates(target, all), NegatedScore(target), limit);
    SortedCandidates(target, all, sorted);
    TakePrefixMultiset(sorted, limit);
    PrefixOfCandidates(target, all, sorted, limit);
    TakePrefix(sorted, limit)
  }

  /** Cutting the ranked candidates keeps their properties and their order. */
  lemma PrefixOfCandidates(target: VocabularyWord, all: seq<VocabularyWord>, sorted: seq<VocabularyWord>, limit: int)
    requires forall i :: 0 <= i < |sorted| ==> sorted[i] in all && IsCandidate(target, sorted[i])
    requires forall i, j :: 0 <= i < j < |sorted| ==> Score(target, sorted[i]) >= Score(target, sorted[j])
    ensures forall i :: 0 <= i < |TakePrefix(sorted, limit)| ==>
      TakePrefix(sorted, limit)[i] in all && IsCandidate(target, TakePrefix(sorted, limit)[i])
    ensures forall i, j :: 0 <= i < j < |TakePrefix(sorted, limit)| ==>
      Score(target, TakePrefix(sorted, limit)[i]) >= Score(target, TakePrefix(sorted, limit)[j])
  {
    var r := TakePrefix(sorted, limit);
    forall i | 0 <= i < |r| ensures r[i] in all && IsCandidate(target, r[i]) {
      assert r[i] == sorted[i];
    }
    forall i, j | 0 <= i < j < |r| ensures Score(target, r[i]) >= Score(target, r[j]) {
      assert r[i] == sorted[i] && r[j] == sorted[j];
    }
  }

  lemma SortedCandidates(target: VocabularyWord, all: seq<VocabularyWord>, sorted: seq<VocabularyWord>)
    requires sorted == SortByKey(Candidates(target, all), NegatedScore(target))
    ensures forall i :: 0 <= i < |sorted| ==> sorted[i] in all && IsCandidate(target, sorted[i])
    ensures forall i, j :: 0 <= i < j < |sorted| ==> Score(target, sorted[i]) >= Score(target, sorted[j])
  {
    var cands := Candidates(target, all);
    forall i | 0 <= i < |sorted| ensures sorted[i] in all && IsCandidate(target, sorted[i]) {
      assert sorted[i] in multiset(sorted);
      assert sorted[i] in cands;
    }
    forall i, j | 0 <= i < j < |sorted| ensures Score(target, sorted[i]) >= Score(target, sorted[j]) {
      assert NegatedScore(target)(sorted[i]) <= NegatedScore(target)(sorted[j]);
    }
  }

  /** Top-k: a candidate that did not make the cut scores no higher than any
      suggestion that did. */
  lemma SuggestionsAreTopScored(target: VocabularyWord, all: seq<VocabularyWord>, limit: int, w: VocabularyWord, i: int)
    requires w in all && IsCandidate(target, w)
    requires 0 <= i < |SuggestRelatedWords(target, all, limit)|
    requires w !in SuggestRelatedWords(target, all, limit)
    ensures Score(target, w) <= Score(target, SuggestRelatedWords(target, all, limit)[i])
  {
    var cands := Candidates(target, all);
    var sorted := SortByKey(cands, NegatedScore(target));
    var r := TakePrefix(sorted, limit);
    assert r == SuggestRelatedWords(target, all, limit);
    var k :| 0 <= k < |all| && all[k] == w;
    assert w in cands;
    assert w in multiset(sorted);
    var j :| 0 <= j < |sorted| && sorted[j] == w;
    assert r[i] == sorted[i];
    assert NegatedScore(target)(sorted[i]) <= NegatedScore(target)(sorted[j]);
  }

  /** A word never suggests itself (nor anything sharing its id). */
  lemma NoSelfSuggestion(target: VocabularyWord, all: seq<VocabularyWord>, limit: int)
    ensures target !in SuggestRelatedWords(target, all, limit)
  {
  }

  // ------------------------------------------------------------ frequency level

  /** getFrequencyLevel: the rank thresholds 1000, 5000, 20000 and 50000. */
  function GetFrequencyLevel(rank: int): (r: FrequencyLevel)
    ensures r == VeryCommon <==> rank <= 1000
    ensures r == Common <==> 1000 < rank <= 5000
    ensures r == Uncommon <==> 5000 < rank <= 20000
    ensures r == Rare <==> 20000 < rank <= 50000
    ensures r == Archaic <==> 50000 < rank
  {
    if rank <= 1000 then VeryCommon
    else if rank <= 5000 then Common
    else if rank <= 20000 then Uncommon
    else if rank <= 50000 then Rare
    else Archaic
  }

  function LevelIndex(l: FrequencyLevel): int {
    match l
    case VeryCommon => 0
    case Common => 1
    case Uncommon => 2
    case Rare => 3
    case Archaic => 4
  }

  /** A larger rank never gives a more common level. */
  lemma FrequencyLevelMonotone(a: int, b: int)
    requires a <= b
    ensures LevelIndex(GetFrequencyLevel(a)) <= LevelIndex(GetFrequencyLevel(b))
  {
  }

  /** The factory's default frequency says "common" with rank 0, while the
      threshold table puts rank 0 in "very-common". */
  lemma DefaultLevelDisagreesWithTable(now: int)
    ensures DefaultFrequency(now).level != GetFrequencyLevel(DefaultFrequency(now).rank)
  {
  }
}
