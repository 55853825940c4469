/** The word database's Anki export (exportToAnki in src/lib/vocabulary.ts):
    one `front;back;tags` line per word, lines joined by line breaks. The back
    is HTML text with two optional trailing segments. */
module VocabularyAnki {
  import opened Collections
  import opened Text
  import opened Vocabulary
  import opened VocabularyCsv

  /** The part of the back every card has: translation, pronunciation (empty
      when absent), part of speech and frequency rank. */
  function AnkiCore(w: VocabularyWord): string {
    w.translation + "<br><br>" + "<i>" + OrEmpty(w.pronunciation) + "</i><br>"
      + "Part of Speech: " + w.partOfSpeech + "<br>"
      + "Frequency Rank: " + IntToString(w.frequency.rank) + "<br>"
  }

  function SynonymsSegment(synonyms: seq<string>): string {
    if |synonyms| > 0 then "Synonyms: " + Join(synonyms, ", ") + "<br>" else ""
  }

  function EtymologySegment(e: Option<Etymology>): string {
    if e.Some? then "Etymology: " + e.value.origin + "<br>" else ""
  }

  function AnkiBack(w: VocabularyWord): string {
    AnkiCore(w) + SynonymsSegment(w.synonyms) + EtymologySegment(w.etymology)
  }

  /** Language, difficulty and the categories, separated by spaces. */
  function AnkiTags(w: VocabularyWord): string {
    Join([w.language, w.difficulty] + w.categories, " ")
  }

  function AnkiLine(w: VocabularyWord): string {
    w.word + ";" + AnkiBack(w) + ";" + AnkiTags(w)
  }

  function ExportToAnki(ws: seq<VocabularyWord>): string {
    Join(Rows(ws, AnkiLine), "\n")
  }

  /** "Synonyms: " follows the fixed part of the back exactly when the word has synonyms,
      and the segment then lists them separated by ", ". */
  lemma SynonymsSegmentIff(w: VocabularyWord)
    ensures OccursAt(AnkiBack(w), "Synonyms: ", |AnkiCore(w)|) <==> |w.synonyms| > 0
    ensures |w.synonyms| > 0 ==>
      OccursAt(AnkiBack(w), "Synonyms: " + Join(w.synonyms, ", ") + "<br>", |AnkiCore(w)|)
  {
    var back := AnkiBack(w);
    var c := |AnkiCore(w)|;
    var syn := SynonymsSegment(w.synonyms);
    var ety := EtymologySegment(w.etymology);
    assert back[c..c + |syn|] == syn;
    if |w.synonyms| > 0 {
      assert syn[..10] == "Synonyms: ";
      assert back[c..c + 10] == syn[..10];
    } else if w.etymology.Some? {
      assert back[c..] == ety;
      assert back[c] == 'E';
    } else {
      assert |back| == c;
    }
  }

  /** "Etymology: " follows the synonyms segment exactly when the word has an
      etymology, and the segment then gives its origin and ends the back. */
  lemma EtymologySegmentIff(w: VocabularyWord)
    ensures OccursAt(AnkiBack(w), "Etymology: ", |AnkiCore(w)| + |SynonymsSegment(w.synonyms)|)
        <==> w.etymology.Some?
    ensures w.etymology.Some? ==>
      AnkiBack(w)[|AnkiCore(w)| + |SynonymsSegment(w.synonyms)|..] == "Etymology: " + w.etymology.value.origin + "<br>"
  {
    var back := AnkiBack(w);
    var c := |AnkiCore(w)| + |SynonymsSegment(w.synonyms)|;
    var ety := EtymologySegment(w.etymology);
    assert back[c..] == ety;
    if w.etymology.Some? {
      assert back[c..c + 11] == ety[..11];
    } else {
      assert |back| == c;
    }
  }

  /** Splitting a card line on ';' gives front, back and tags, provided none of
      them contains a ';' (the export does no escaping). */
  lemma AnkiLineFields(w: VocabularyWord)
    requires ';' !in w.word && ';' !in AnkiBack(w) && ';' !in AnkiTags(w)
    ensures Split(AnkiLine(w), ';') == [w.word, AnkiBack(w), AnkiTags(w)]
  {
    var parts := [w.word, AnkiBack(w), AnkiTags(w)];
    assert Join(parts[1..], ";") == AnkiBack(w) + ";" + Join(parts[2..], ";");
    assert Join(parts, ";") == AnkiLine(w);
    SplitJoin(parts, ';');
  }

  /** The tags split on spaces are the language, the difficulty and the
      categories, provided none of them contains a space. */
  lemma AnkiTagsFields(w: VocabularyWord)
    requires ' ' !in w.language && ' ' !in w.difficulty
    requires forall i :: 0 <= i < |w.categories| ==> ' ' !in w.categories[i]
    ensures Split(AnkiTags(w), ' ') == [w.language, w.difficulty] + w.categories
  {
    var tags := [w.language, w.difficulty] + w.categories;
    assert forall i :: 0 <= i < |tags| ==> ' ' !in tags[i] by {
      forall i | 0 <= i < |tags| ensures ' ' !in tags[i] {
        if i >= 2 { assert tags[i] == w.categories[i - 2]; }
      }
    }
    SplitJoin(tags, ' ');
  }

  /** The export of no words is empty; otherwise it is one line per word, in
      order, provided no card contains a line break. */
  lemma ExportToAnkiLines(ws: seq<VocabularyWord>)
    requires forall k :: 0 <= k < |ws| ==> '\n' !in AnkiLine(ws[k])
    ensures ws == [] ==> ExportToAnki(ws) == ""
    ensures ws != [] ==> Split(ExportToAnki(ws), '\n') == Rows(ws, AnkiLine)
    ensures ws != [] ==> forall k :: 0 <= k < |ws| ==> Split(ExportToAnki(ws), '\n')[k] == AnkiLine(ws[k])
  {
    if ws != [] {
      SplitJoin(Rows(ws, AnkiLine), '\n');
    }
  }
}
