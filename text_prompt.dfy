/** The text handling of the TextPrompt component
    (src/components/TextPrompt.tsx): the word under a double-click, the
    trimmed text of a selection, and the vocabulary word built from a
    dictionary lookup. */
module TextPrompt {
  import opened Collections
  import opened Text
  import opened Vocabulary

  /** The regular-expression class `\w`: an ASCII letter, a digit or the underscore. */
  predicate IsWordChar(c: char) {
    ('a' <= c <= 'z') || ('A' <= c <= 'Z') || ('0' <= c <= '9') || c == '_'
  }

  /** [start, end) is a run of word characters around `cursor` that cannot be extended. */
  predicate MaximalWordSpan(text: string, cursor: int, start: int, end: int) {
    && 0 <= start <= cursor <= end <= |text|
    && (forall i :: start <= i < end ==> IsWordChar(text[i]))
    && (start == 0 || !IsWordChar(text[start - 1]))
    && (end == |text| || !IsWordChar(text[end]))
  }

  /** There is one maximal span around a cursor. */
  lemma MaximalWordSpanUnique(text: string, cursor: int, s1: int, e1: int, s2: int, e2: int)
    requires MaximalWordSpan(text, cursor, s1, e1) && MaximalWordSpan(text, cursor, s2, e2)
    ensures s1 == s2 && e1 == e2
  {
  }

  /** The word boundary scan of handleDoubleClick: step back while the
      previous character is a word character, then forward while the next one
      is. The cursor is a textarea's selectionStart, so it lies within the text. */
  method ScanWord(text: string, clickPosition: int) returns (start: int, end: int)
    requires 0 <= clickPosition <= |text|
    ensures MaximalWordSpan(text, clickPosition, start, end)
  {
    start := clickPosition;
    end := clickPosition;
    while start > 0 && IsWordChar(text[start - 1])
      invariant 0 <= start <= clickPosition
      invariant forall i :: start <= i < clickPosition ==> IsWordChar(text[i])
    {
      start := start - 1;
    }
    while end < |text| && IsWordChar(text[end])
      invariant clickPosition <= end <= |text|
      invariant forall i :: clickPosition <= i < end ==> IsWordChar(text[i])
    {
      end := end + 1;
    }
  }

  /** handleDoubleClick: the word under the cursor, trimmed; nothing when the
      span is empty. */
  method HandleDoubleClick(text: string, clickPosition: int) returns (selected: Option<string>)
    requires 0 <= clickPosition <= |text|
    ensures selected.Some? ==> exists start, end ::
      MaximalWordSpan(text, clickPosition, start, end) && start < end && selected.value == text[start..end]
    ensures selected.None? <==>
      (clickPosition == 0 || !IsWordChar(text[clickPosition - 1])) &&
      (clickPosition == |text| || !IsWordChar(text[clickPosition]))
  {
    var start, end := ScanWord(text, clickPosition);
    var word := Trim(Substring(text, start, end));
    WordSpanTrimmed(text, start, end);
    if word != "" {
      selected := Some(word);
    } else {
      selected := None;
    }
  }

  /** A run of word characters has no white space to trim. */
  lemma WordSpanTrimmed(text: string, start: int, end: int)
    requires 0 <= start <= end <= |text|
    requires forall i :: start <= i < end ==> IsWordChar(text[i])
    ensures Trim(Substring(text, start, end)) == text[start..end]
  {
    var w := text[start..end];
    assert Substring(text, start, end) == w;
    if w != [] {
      assert IsWordChar(w[0]) && IsWordChar(w[|w| - 1]);
    }
    TrimNoEdgeSpace(w);
  }

  /** handleTextSelection: the selected text, trimmed; nothing for an empty
      selection or one made only of white space. */
  function TextSelection(value: string, selectionStart: int, selectionEnd: int): (r: Option<string>)
    ensures r.Some? ==> r.value != "" && !IsSpace(r.value[0]) && !IsSpace(r.value[|r.value| - 1])
  {
    if selectionStart == selectionEnd then None
    else
      var selectedText := Trim(Substring(value, selectionStart, selectionEnd));
      if selectedText == "" then None else Some(selectedText)
  }

  /** A selection yields nothing exactly when the range is empty or holds only white space. */
  lemma TextSelectionNone(value: string, selectionStart: int, selectionEnd: int)
    ensures var sub := Substring(value, selectionStart, selectionEnd);
      TextSelection(value, selectionStart, selectionEnd).None? <==>
        selectionStart == selectionEnd || forall i :: 0 <= i < |sub| ==> IsSpace(sub[i])
  {
    TrimEmptyIff(Substring(value, selectionStart, selectionEnd));
  }

  /** The selected text is a piece of the value. */
  lemma TextSelectionInValue(value: string, selectionStart: int, selectionEnd: int)
    requires TextSelection(value, selectionStart, selectionEnd).Some?
    ensures exists k :: OccursAt(value, TextSelection(value, selectionStart, selectionEnd).value, k)
  {
    var sub := Substring(value, selectionStart, selectionEnd);
    SubstringInfix(value, selectionStart, selectionEnd);
    var lo :| OccursAt(value, sub, lo);
    TrimInfix(sub);
    OccursAtNested(value, sub, Trim(sub), lo, |sub| - |TrimStart(sub)|);
  }

  lemma SubstringInfix(s: string, a: int, b: int)
    ensures exists k :: OccursAt(s, Substring(s, a, b), k)
  {
    var lo := if a < 0 then 0 else if a > |s| then |s| else a;
    var hi := if b < 0 then 0 else if b > |s| then |s| else b;
    if lo <= hi { assert OccursAt(s, Substring(s, a, b), lo); }
    else { assert OccursAt(s, Substring(s, a, b), hi); }
  }

  /** The frequency label of a dictionary entry. */
  datatype FrequencyLabel = VeryCommon | CommonLabel | Uncommon | RareLabel

  /** WordInfo: what the dictionary lookup returns. */
  datatype WordInfo = WordInfo(
    word: string,
    translation: string,
    pronunciation: Option<string>,
    definition: string,
    examples: seq<string>,
    synonyms: seq<string>,
    antonyms: seq<string>,
    frequency: FrequencyLabel,
    etymology: Option<string>)

  const ImportedCategory: string := "imported"

  /** One example per looked-up sentence, with an empty translation. */
  function LookupExamples(sentences: seq<string>): (r: seq<Example>)
    ensures |r| == |sentences|
    ensures forall k :: 0 <= k < |r| ==> r[k].sentence == sentences[k] && r[k].translation == ""
  {
    seq(|sentences|, k requires 0 <= k < |sentences| => Example(sentences[k], "", None, None, None))
  }

  /** The draft handleAddToVocabulary gives to createVocabularyWord, with the
      lookup's frequency label and etymology text left out. */
  function LookupDraft(info: WordInfo, language: string): WordDraft {
    MinimalDraft(info.word, info.translation, language).(
      pronunciation := info.pronunciation,
      examples := Some(LookupExamples(info.examples)),
      synonyms := Some(info.synonyms),
      antonyms := Some(info.antonyms),
      categories := Some([ImportedCategory]))
  }

  /** The word added to the vocabulary: word, translation and pronunciation
      from the lookup, the caller's language, the single category "imported",
      one example per looked-up sentence with an empty translation, the
      synonyms and antonyms, and the defaults of createVocabularyWord otherwise. */
  lemma AddedWordFacts(info: WordInfo, language: string, freshId: string, now: int)
    ensures var w := CreateVocabularyWord(LookupDraft(info, language), freshId, now);
      && w.id == freshId
      && w.word == info.word && w.translation == info.translation && w.language == language
      && w.pronunciation == info.pronunciation
      && w.categories == [ImportedCategory]
      && |w.examples| == |info.examples|
      && (forall k :: 0 <= k < |w.examples| ==> w.examples[k].sentence == info.examples[k] && w.examples[k].translation == "")
      && w.synonyms == info.synonyms && w.antonyms == info.antonyms
      && w.partOfSpeech == "noun" && w.difficulty == "beginner"
      && w.dateAdded == now && w.dateModified == now
  {
  }
}
