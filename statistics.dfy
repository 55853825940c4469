/** The aggregates of WordDatabaseService.getWordStatistics
    (src/lib/vocabulary.ts), written as folds over the list of words: sums,
    counts, and tallies of how often each key occurs. */
module Statistics {
  import opened Collections
  import opened Vocabulary

  datatype MorphologyStats = MorphologyStats(
    wordsWithInflections: int,
    wordsWithDerivedForms: int,
    commonPrefixes: map<string, int>,
    commonSuffixes: map<string, int>)

  datatype WordStatistics = WordStatistics(
    totalWords: int,
    averageFrequencyRank: real,
    etymologyOrigins: map<string, int>,
    registerDistribution: map<string, int>,
    emotionalDistribution: map<string, int>,
    totalIdioms: int,
    totalPhrases: int,
    totalCollocations: int,
    morphologyStats: MorphologyStats)

  /** `counter[key] = (counter[key] || 0) + 1`. */
  function Bump(counter: map<string, int>, key: string): map<string, int> {
    counter[key := (if key in counter then counter[key] else 0) + 1]
  }

  /** The counter after bumping each key in turn. */
  function TallyInto(counter: map<string, int>, keys: seq<string>): map<string, int>
    decreases |keys|
  {
    if keys == [] then counter else Bump(TallyInto(counter, keys[..|keys| - 1]), keys[|keys| - 1])
  }

  function Tally(keys: seq<string>): map<string, int> {
    TallyInto(map[], keys)
  }

  /** A tally has an entry for exactly the keys that occur, holding how often each occurs. */
  lemma {:induction false} TallyCounts(keys: seq<string>, k: string)
    ensures k in Tally(keys) <==> k in keys
    ensures k in keys ==> Tally(keys)[k] == multiset(keys)[k]
    decreases |keys|
  {
    if keys != [] {
      var init := keys[..|keys| - 1];
      var last := keys[|keys| - 1];
      TallyCounts(init, k);
      assert keys == init + [last];
      assert multiset(keys) == multiset(init) + multiset{last};
      assert k in keys <==> k in init || k == last;
    }
  }

  lemma TallyIntoSnoc(counter: map<string, int>, keys: seq<string>, j: int)
    requires 0 <= j < |keys|
    ensures TallyInto(counter, keys[..j + 1]) == Bump(TallyInto(counter, keys[..j]), keys[j])
  {
    assert keys[..j + 1][..j] == keys[..j];
  }

  /** Tallying two lists one after the other is tallying their concatenation. */
  lemma {:induction false} TallyIntoAppend(counter: map<string, int>, a: seq<string>, b: seq<string>)
    ensures TallyInto(TallyInto(counter, a), b) == TallyInto(counter, a + b)
    decreases |b|
  {
    if b == [] {
      assert a + b == a;
    } else {
      var init := b[..|b| - 1];
      TallyIntoAppend(counter, a, init);
      assert (a + b)[..|a + b| - 1] == a + init;
    }
  }

  /** The sum of `f` over the words. */
  function SumOf(ws: seq<VocabularyWord>, f: VocabularyWord -> int): int
    decreases |ws|
  {
    if ws == [] then 0 else SumOf(ws[..|ws| - 1], f) + f(ws[|ws| - 1])
  }

  /** The lists `f` gives for the words, concatenated. */
  function Gather(ws: seq<VocabularyWord>, f: VocabularyWord -> seq<string>): seq<string>
    decreases |ws|
  {
    if ws == [] then [] else Gather(ws[..|ws| - 1], f) + f(ws[|ws| - 1])
  }

  lemma FoldsSnoc(ws: seq<VocabularyWord>, n: int, f: VocabularyWord -> int, g: VocabularyWord -> seq<string>)
    requires 0 <= n < |ws|
    ensures SumOf(ws[..n + 1], f) == SumOf(ws[..n], f) + f(ws[n])
    ensures Gather(ws[..n + 1], g) == Gather(ws[..n], g) + g(ws[n])
  {
    assert ws[..n + 1][..n] == ws[..n];
  }

  /** The rank when positive, otherwise nothing: what `totalRank` adds up. */
  function RankIfRanked(w: VocabularyWord): int {
    if w.frequency.rank > 0 then w.frequency.rank else 0
  }

  function RankedFlag(w: VocabularyWord): int {
    if w.frequency.rank > 0 then 1 else 0
  }

  /** A truthy etymology origin, register or emotional connotation, as a list of at most one key. */
  function OriginOf(w: VocabularyWord): seq<string> {
    if w.etymology.Some? && w.etymology.value.origin != "" then [w.etymology.value.origin] else []
  }

  function RegisterOf(w: VocabularyWord): seq<string> {
    if w.register.Some? && w.register.value != "" then [w.register.value] else []
  }

  function EmotionOf(w: VocabularyWord): seq<string> {
    if w.emotionalConnotation.Some? && w.emotionalConnotation.value != "" then [w.emotionalConnotation.value] else []
  }

  function IdiomCount(w: VocabularyWord): int { |w.idioms| }
  function PhraseCount(w: VocabularyWord): int { |w.phrases| }
  function CollocationCount(w: VocabularyWord): int { |w.collocations| }

  function HasInflections(w: VocabularyWord): int {
    if w.morphology.Some? && w.morphology.value.inflections.Some? && |w.morphology.value.inflections.value| > 0
    then 1 else 0
  }

  function HasDerivedForms(w: VocabularyWord): int {
    if w.morphology.Some? && w.morphology.value.derivedForms.Some? && |w.morphology.value.derivedForms.value| > 0
    then 1 else 0
  }

  function PrefixesOf(w: VocabularyWord): seq<string> {
    if w.morphology.Some? && w.morphology.value.prefix.Some? then w.morphology.value.prefix.value else []
  }

  function SuffixesOf(w: VocabularyWord): seq<string> {
    if w.morphology.Some? && w.morphology.value.suffix.Some? then w.morphology.value.suffix.value else []
  }

  /** The counters after the forEach has seen the words `ws`, for a list of `total` words. */
  function Tallied(total: int, ws: seq<VocabularyWord>): WordStatistics {
    WordStatistics(total, 0.0,
      Tally(Gather(ws, OriginOf)), Tally(Gather(ws, RegisterOf)), Tally(Gather(ws, EmotionOf)),
      SumOf(ws, IdiomCount), SumOf(ws, PhraseCount), SumOf(ws, CollocationCount),
      MorphologyStats(SumOf(ws, HasInflections), SumOf(ws, HasDerivedForms),
        Tally(Gather(ws, PrefixesOf)), Tally(Gather(ws, SuffixesOf))))
  }

  /** What the forEach callback adds to the counters for one word. */
  function AddWordCounts(s: WordStatistics, w: VocabularyWord): WordStatistics {
    s.(etymologyOrigins := TallyInto(s.etymologyOrigins, OriginOf(w)),
       registerDistribution := TallyInto(s.registerDistribution, RegisterOf(w)),
       emotionalDistribution := TallyInto(s.emotionalDistribution, EmotionOf(w)),
       totalIdioms := s.totalIdioms + IdiomCount(w),
       totalPhrases := s.totalPhrases + PhraseCount(w),
       totalCollocations := s.totalCollocations + CollocationCount(w),
       morphologyStats := MorphologyStats(
         s.morphologyStats.wordsWithInflections + HasInflections(w),
         s.morphologyStats.wordsWithDerivedForms + HasDerivedForms(w),
         TallyInto(s.morphologyStats.commonPrefixes, PrefixesOf(w)),
         TallyInto(s.morphologyStats.commonSuffixes, SuffixesOf(w))))
  }

  lemma TallyGatherSnoc(ws: seq<VocabularyWord>, n: int, g: VocabularyWord -> seq<string>)
    requires 0 <= n < |ws|
    ensures Tally(Gather(ws[..n + 1], g)) == TallyInto(Tally(Gather(ws[..n], g)), g(ws[n]))
  {
    FoldsSnoc(ws, n, IdiomCount, g);
    TallyIntoAppend(map[], Gather(ws[..n], g), g(ws[n]));
  }

  /** `keys.forEach(k => counter[k] = (counter[k] || 0) + 1)`. */
  method BumpAll(counter: map<string, int>, keys: seq<string>) returns (r: map<string, int>)
    ensures r == TallyInto(counter, keys)
  {
    r := counter;
    var j := 0;
    while j < |keys|
      invariant 0 <= j <= |keys|
      invariant r == TallyInto(counter, keys[..j])
    {
      r := Bump(r, keys[j]);
      TallyIntoSnoc(counter, keys, j);
      j := j + 1;
    }
    assert keys[..j] == keys;
  }

  /** The forEach callback of getWordStatistics for one word. */
  method CountWord(stats: WordStatistics, totalRank: int, wordsWithRank: int, word: VocabularyWord)
    returns (s: WordStatistics, total: int, ranked: int)
    ensures s == AddWordCounts(stats, word)
    ensures total == totalRank + RankIfRanked(word) && ranked == wordsWithRank + RankedFlag(word)
  {
    total, ranked := totalRank, wordsWithRank;
    if word.frequency.rank > 0 {
      total := total + word.frequency.rank;
      ranked := ranked + 1;
    }
    var origins := CountOrigin(stats.etymologyOrigins, word);
    var registers := CountRegister(stats.registerDistribution, word);
    var emotions := CountEmotion(stats.emotionalDistribution, word);
    var ms := CountMorphology(stats.morphologyStats, word);
    s := stats.(etymologyOrigins := origins, registerDistribution := registers,
                emotionalDistribution := emotions,
                totalIdioms := stats.totalIdioms + |word.idioms|,
                totalPhrases := stats.totalPhrases + |word.phrases|,
                totalCollocations := stats.totalCollocations + |word.collocations|,
                morphologyStats := ms);
  }

  method CountOrigin(counter: map<string, int>, word: VocabularyWord) returns (r: map<string, int>)
    ensures r == TallyInto(counter, OriginOf(word))
  {
    r := counter;
    if word.etymology.Some? && word.etymology.value.origin != "" {
      r := Bump(r, word.etymology.value.origin);
    }
    TallyOne(counter, OriginOf(word));
  }

  method CountRegister(counter: map<string, int>, word: VocabularyWord) returns (r: map<string, int>)
    ensures r == TallyInto(counter, RegisterOf(word))
  {
    r := counter;
    if word.register.Some? && word.register.value != "" {
      r := Bump(r, word.register.value);
    }
    TallyOne(counter, RegisterOf(word));
  }

  method CountEmotion(counter: map<string, int>, word: VocabularyWord) returns (r: map<string, int>)
    ensures r == TallyInto(counter, EmotionOf(word))
  {
    r := counter;
    if word.emotionalConnotation.Some? && word.emotionalConnotation.value != "" {
      r := Bump(r, word.emotionalConnotation.value);
    }
    TallyOne(counter, EmotionOf(word));
  }

  /** The morphology part of the callback. */
  method CountMorphology(stats: MorphologyStats, word: VocabularyWord) returns (ms: MorphologyStats)
    ensures ms == MorphologyStats(
      stats.wordsWithInflections + HasInflections(word),
      stats.wordsWithDerivedForms + HasDerivedForms(word),
      TallyInto(stats.commonPrefixes, PrefixesOf(word)),
      TallyInto(stats.commonSuffixes, SuffixesOf(word)))
  {
    ms := stats;
    if word.morphology.Some? {
      var m := word.morphology.value;
      if m.inflections.Some? && |m.inflections.value| > 0 {
        ms := ms.(wordsWithInflections := ms.wordsWithInflections + 1);
      }
      if m.derivedForms.Some? && |m.derivedForms.value| > 0 {
        ms := ms.(wordsWithDerivedForms := ms.wordsWithDerivedForms + 1);
      }
      if m.prefix.Some? {
        var p := BumpAll(ms.commonPrefixes, m.prefix.value);
        ms := ms.(commonPrefixes := p);
      }
      if m.suffix.Some? {
        var q := BumpAll(ms.commonSuffixes, m.suffix.value);
        ms := ms.(commonSuffixes := q);
      }
    }
  }

  lemma TallyOne(counter: map<string, int>, keys: seq<string>)
    requires |keys| <= 1
    ensures keys == [] ==> TallyInto(counter, keys) == counter
    ensures |keys| == 1 ==> TallyInto(counter, keys) == Bump(counter, keys[0])
  {
    if |keys| == 1 { assert keys[..0] == []; }
  }

  /** Counting one more word is one step of the callback. */
  lemma TalliedStep(total: int, ws: seq<VocabularyWord>, n: int)
    requires 0 <= n < |ws|
    ensures Tallied(total, ws[..n + 1]) == AddWordCounts(Tallied(total, ws[..n]), ws[n])
  {
    TallyGatherSnoc(ws, n, OriginOf);
    TallyGatherSnoc(ws, n, RegisterOf);
    TallyGatherSnoc(ws, n, EmotionOf);
    TallyGatherSnoc(ws, n, PrefixesOf);
    TallyGatherSnoc(ws, n, SuffixesOf);
    FoldsSnoc(ws, n, IdiomCount, OriginOf);
    FoldsSnoc(ws, n, PhraseCount, OriginOf);
    FoldsSnoc(ws, n, CollocationCount, OriginOf);
    FoldsSnoc(ws, n, HasInflections, OriginOf);
    FoldsSnoc(ws, n, HasDerivedForms, OriginOf);
  }

  /** The statistics of a list of words: the counters, and the mean of the
      positive ranks (0 when no word has one). */
  function StatisticsOf(ws: seq<VocabularyWord>): WordStatistics {
    var ranked := SumOf(ws, RankedFlag);
    Tallied(|ws|, ws).(averageFrequencyRank :=
      if ranked > 0 then SumOf(ws, RankIfRanked) as real / ranked as real else 0.0)
  }

  /** The body of getWordStatistics: one pass counting and tallying, then the mean of the positive ranks. */
  method ComputeStatistics(ws: seq<VocabularyWord>) returns (stats: WordStatistics)
    ensures stats == StatisticsOf(ws)
  {
    stats := WordStatistics(|ws|, 0.0, map[], map[], map[], 0, 0, 0, MorphologyStats(0, 0, map[], map[]));
    var totalRank := 0;
    var wordsWithRank := 0;
    var n := 0;
    while n < |ws|
      invariant 0 <= n <= |ws|
      invariant stats == Tallied(|ws|, ws[..n])
      invariant totalRank == SumOf(ws[..n], RankIfRanked) && wordsWithRank == SumOf(ws[..n], RankedFlag)
    {
      stats, totalRank, wordsWithRank := CountWord(stats, totalRank, wordsWithRank, ws[n]);
      TalliedStep(|ws|, ws, n);
      FoldsSnoc(ws, n, RankIfRanked, OriginOf);
      FoldsSnoc(ws, n, RankedFlag, OriginOf);
      n := n + 1;
    }
    assert ws[..n] == ws;
    if wordsWithRank > 0 {
      stats := stats.(averageFrequencyRank := totalRank as real / wordsWithRank as real);
    }
  }

  /** Every positive rank is at least 1, so the ranks add up to at least their number. */
  lemma {:induction false} RankTotalBound(ws: seq<VocabularyWord>)
    ensures 0 <= SumOf(ws, RankedFlag) <= SumOf(ws, RankIfRanked)
    ensures SumOf(ws, RankedFlag) <= |ws|
    decreases |ws|
  {
    if ws != [] {
      RankTotalBound(ws[..|ws| - 1]);
    }
  }

  /** The mean rank: at least 1 when some word is ranked, 0 when none is. */
  lemma AverageRankBound(ws: seq<VocabularyWord>)
    ensures SumOf(ws, RankedFlag) > 0 ==> StatisticsOf(ws).averageFrequencyRank >= 1.0
    ensures SumOf(ws, RankedFlag) == 0 ==> StatisticsOf(ws).averageFrequencyRank == 0.0
    ensures StatisticsOf(ws).averageFrequencyRank >= 0.0
  {
    RankTotalBound(ws);
    var n := SumOf(ws, RankedFlag);
    if n > 0 {
      var t := SumOf(ws, RankIfRanked);
      MeanAtLeastOne(t as real, n as real);
    }
  }

  lemma MeanAtLeastOne(t: real, n: real)
    requires 0.0 < n <= t
    ensures t / n >= 1.0
  {
    assert (t / n) * n == t;
  }

  /** Each tally of the statistics counts, per key, the entries that carry it:
      the truthy origins, registers and connotations of the words, and the
      prefixes and suffixes their morphology lists. */
  lemma TallyMeaning(ws: seq<VocabularyWord>, key: string)
    ensures var s := StatisticsOf(ws); var g := Gather(ws, OriginOf);
      (key in s.etymologyOrigins <==> key in g) && (key in g ==> s.etymologyOrigins[key] == multiset(g)[key])
    ensures var s := StatisticsOf(ws); var g := Gather(ws, RegisterOf);
      (key in s.registerDistribution <==> key in g) && (key in g ==> s.registerDistribution[key] == multiset(g)[key])
    ensures var s := StatisticsOf(ws); var g := Gather(ws, EmotionOf);
      (key in s.emotionalDistribution <==> key in g) && (key in g ==> s.emotionalDistribution[key] == multiset(g)[key])
    ensures var s := StatisticsOf(ws); var g := Gather(ws, PrefixesOf);
      (key in s.morphologyStats.commonPrefixes <==> key in g) &&
      (key in g ==> s.morphologyStats.commonPrefixes[key] == multiset(g)[key])
    ensures var s := StatisticsOf(ws); var g := Gather(ws, SuffixesOf);
      (key in s.morphologyStats.commonSuffixes <==> key in g) &&
      (key in g ==> s.morphologyStats.commonSuffixes[key] == multiset(g)[key])
  {
    TallyCounts(Gather(ws, OriginOf), key);
    TallyCounts(Gather(ws, RegisterOf), key);
    TallyCounts(Gather(ws, EmotionOf), key);
    TallyCounts(Gather(ws, PrefixesOf), key);
    TallyCounts(Gather(ws, SuffixesOf), key);
  }

  /** A key of the origin tally is the truthy origin of some word. */
  lemma {:induction false} GatheredOrigins(ws: seq<VocabularyWord>, origin: string)
    ensures origin in Gather(ws, OriginOf) <==>
      exists i :: 0 <= i < |ws| && ws[i].etymology.Some? && ws[i].etymology.value.origin == origin && origin != ""
    decreases |ws|
  {
    if ws != [] {
      var init := ws[..|ws| - 1];
      GatheredOrigins(init, origin);
      if exists i :: 0 <= i < |init| && init[i].etymology.Some? && init[i].etymology.value.origin == origin && origin != "" {
        var i :| 0 <= i < |init| && init[i].etymology.Some? && init[i].etymology.value.origin == origin && origin != "";
        assert ws[i] == init[i];
      }
      if exists i :: 0 <= i < |ws| && ws[i].etymology.Some? && ws[i].etymology.value.origin == origin && origin != "" {
        var i :| 0 <= i < |ws| && ws[i].etymology.Some? && ws[i].etymology.value.origin == origin && origin != "";
        if i < |init| { assert init[i] == ws[i]; }
      }
    }
  }
}
