/** The CSV side of src/lib/vocabulary.ts: the header-driven importer
    importFromCSV, the free serialiser exportToCSV, and the serialiser the word
    database uses for its csv export. There is no quoting: a cell is whatever
    lies between two commas of a line. Number, JSON and date formatting are
    supplied by the caller as `Encoders`. */
module VocabularyCsv {
  import opened Collections
  import opened Text
  import opened Vocabulary

  /** Number.prototype.toString for frequencies, JSON.stringify for the
      sentence list and the etymology record, Date.prototype.toISOString. */
  datatype Encoders = Encoders(
    number: real -> string,
    sentencesJson: seq<string> -> string,
    etymologyJson: Etymology -> string,
    isoDate: int -> string)

  function TrimAll(s: seq<string>): (r: seq<string>)
    ensures |r| == |s|
    ensures forall i :: 0 <= i < |s| ==> r[i] == Trim(s[i])
  {
    seq(|s|, i requires 0 <= i < |s| => Trim(s[i]))
  }

  /** The field a header selects, matched after lower-casing. */
  datatype Column = WordColumn | TranslationColumn | PronunciationColumn | PartOfSpeechColumn
                  | DifficultyColumn | CategoriesColumn | OtherColumn

  function ColumnOf(header: string): Column {
    var h := Lower(header);
    if h == "word" then WordColumn
    else if h == "translation" then TranslationColumn
    else if h == "pronunciation" then PronunciationColumn
    else if h == "part of speech" || h == "pos" then PartOfSpeechColumn
    else if h == "difficulty" then DifficultyColumn
    else if h == "categories" then CategoriesColumn
    else OtherColumn
  }

  /** What a data row has set so far (the importer's `Partial<VocabularyWord>`). */
  datatype CsvFields = CsvFields(
    word: Option<string>,
    translation: Option<string>,
    pronunciation: Option<string>,
    partOfSpeech: Option<string>,
    difficulty: Option<string>,
    categories: Option<seq<string>>)

  const NoFields: CsvFields := CsvFields(None, None, None, None, None, None)

  /** `values[index]`, a missing cell reading as the (falsy) empty string. */
  function Cell(values: seq<string>, k: int): string {
    if 0 <= k < |values| then values[k] else ""
  }

  /** One step of the forEach over headers: a non-empty cell is stored in the
      field its header selects; categories are split on ';' and trimmed. */
  function ApplyCell(f: CsvFields, header: string, value: string): CsvFields {
    if value == "" then f
    else match ColumnOf(header)
      case WordColumn => f.(word := Some(value))
      case TranslationColumn => f.(translation := Some(value))
      case PronunciationColumn => f.(pronunciation := Some(value))
      case PartOfSpeechColumn => f.(partOfSpeech := Some(value))
      case DifficultyColumn => f.(difficulty := Some(value))
      case CategoriesColumn => f.(categories := Some(TrimAll(Split(value, ';'))))
      case OtherColumn => f
  }

  /** The fields set by the first `n` headers. */
  function ParseCells(headers: seq<string>, values: seq<string>, n: int): CsvFields
    requires 0 <= n <= |headers|
    decreases n
  {
    if n == 0 then NoFields
    else ApplyCell(ParseCells(headers, values, n - 1), headers[n - 1], Cell(values, n - 1))
  }

  /** The last non-empty cell, among the first `n` columns, whose header selects `c`. */
  function LastValue(headers: seq<string>, values: seq<string>, n: int, c: Column): Option<string>
    requires 0 <= n <= |headers|
    decreases n
  {
    if n == 0 then None
    else if ColumnOf(headers[n - 1]) == c && Cell(values, n - 1) != "" then Some(Cell(values, n - 1))
    else LastValue(headers, values, n - 1, c)
  }

  function SplitCategories(v: Option<string>): Option<seq<string>> {
    match v
    case None => None
    case Some(s) => Some(TrimAll(Split(s, ';')))
  }

  /** Headers are matched by column index, case-insensitively, and a later
      column overrides an earlier one selecting the same field. */
  lemma {:induction false} ParseCellsMeans(headers: seq<string>, values: seq<string>, n: int)
    requires 0 <= n <= |headers|
    ensures ParseCells(headers, values, n).word == LastValue(headers, values, n, WordColumn)
    ensures ParseCells(headers, values, n).translation == LastValue(headers, values, n, TranslationColumn)
    ensures ParseCells(headers, values, n).pronunciation == LastValue(headers, values, n, PronunciationColumn)
    ensures ParseCells(headers, values, n).partOfSpeech == LastValue(headers, values, n, PartOfSpeechColumn)
    ensures ParseCells(headers, values, n).difficulty == LastValue(headers, values, n, DifficultyColumn)
    ensures ParseCells(headers, values, n).categories == SplitCategories(LastValue(headers, values, n, CategoriesColumn))
    decreases n
  {
    if n > 0 {
      ParseCellsMeans(headers, values, n - 1);
      ApplyCellFields(ParseCells(headers, values, n - 1), headers[n - 1], Cell(values, n - 1));
    }
  }

  /** One cell sets the field its header selects, when it is non-empty, and nothing else. */
  lemma ApplyCellFields(f: CsvFields, header: string, value: string)
    ensures var g := ApplyCell(f, header, value);
      var col := ColumnOf(header);
      && g.word == (if value != "" && col == WordColumn then Some(value) else f.word)
      && g.translation == (if value != "" && col == TranslationColumn then Some(value) else f.translation)
      && g.pronunciation == (if value != "" && col == PronunciationColumn then Some(value) else f.pronunciation)
      && g.partOfSpeech == (if value != "" && col == PartOfSpeechColumn then Some(value) else f.partOfSpeech)
      && g.difficulty == (if value != "" && col == DifficultyColumn then Some(value) else f.difficulty)
      && g.categories == (if value != "" && col == CategoriesColumn then SplitCategories(Some(value)) else f.categories)
  {
  }

  /** When a single column selects `c`, the field is that column's cell if non-empty. */
  lemma {:induction false} LastValueUnique(headers: seq<string>, values: seq<string>, n: int, c: Column, k0: int)
    requires 0 <= k0 < n <= |headers|
    requires ColumnOf(headers[k0]) == c
    requires forall k :: 0 <= k < n && k != k0 ==> ColumnOf(headers[k]) != c
    ensures LastValue(headers, values, n, c) == if Cell(values, k0) != "" then Some(Cell(values, k0)) else None
    decreases n
  {
    if n - 1 > k0 {
      LastValueUnique(headers, values, n - 1, c, k0);
    } else {
      LastValueAbsent(headers, values, k0, c);
    }
  }

  lemma {:induction false} LastValueAbsent(headers: seq<string>, values: seq<string>, n: int, c: Column)
    requires 0 <= n <= |headers|
    requires forall k :: 0 <= k < n ==> ColumnOf(headers[k]) != c
    ensures LastValue(headers, values, n, c) == None
    decreases n
  {
    if n > 0 {
      LastValueAbsent(headers, values, n - 1, c);
    }
  }

  /** A row is kept when both word and translation were set. */
  predicate Importable(f: CsvFields) {
    f.word.Some? && f.word.value != "" && f.translation.Some? && f.translation.value != ""
  }

  /** The draft handed to createVocabularyWord: the row's fields plus the language. */
  function DraftFromFields(f: CsvFields, language: string): WordDraft
    requires Importable(f)
  {
    MinimalDraft(f.word.value, f.translation.value, language).(
      pronunciation := f.pronunciation, partOfSpeech := f.partOfSpeech,
      difficulty := f.difficulty, categories := f.categories)
  }

  /** The word createVocabularyWord builds from a row's fields: those fields,
      the given language, the fresh id and the creation time; the rest are defaults. */
  function ImportedWord(f: CsvFields, language: string, id: string, now: int): (r: VocabularyWord)
    requires Importable(f)
    ensures r.word == f.word.value && r.translation == f.translation.value && r.language == language
    ensures r.id == id && r.dateAdded == now && r.dateModified == now
    ensures r.pronunciation == f.pronunciation
    ensures r.partOfSpeech == f.partOfSpeech.GetOr("noun")
    ensures r.difficulty == f.difficulty.GetOr("beginner")
    ensures r.categories == f.categories.GetOr([])
  {
    CreateVocabularyWord(DraftFromFields(f, language), id, now)
  }

  function Lines(csvText: string): (r: seq<string>)
    ensures |r| >= 1
  {
    Split(Trim(csvText), '\n')
  }

  function Headers(lines: seq<string>): seq<string>
    requires |lines| >= 1
  {
    TrimAll(Split(lines[0], ','))
  }

  /** The fields a data line sets, given the headers. */
  function RowFields(headers: seq<string>, line: string): CsvFields {
    ParseCells(headers, TrimAll(Split(line, ',')), |headers|)
  }

  /** The fields of every data line: entry `k` belongs to line `k + 1`. */
  function RowsOf(lines: seq<string>): (r: seq<CsvFields>)
    requires |lines| >= 1
  {
    MapSeq(RowParser(Headers(lines)), lines[1..])
  }

  function RowParser(headers: seq<string>): string -> CsvFields {
    (line: string) => RowFields(headers, line)
  }

  /** The word a row contributes: none, or one. */
  function RowWord(f: CsvFields, language: string, id: string, now: int): (r: seq<VocabularyWord>)
    ensures |r| <= 1
    ensures forall k :: 0 <= k < |r| ==> r[k].language == language && r[k].word != "" && r[k].translation != ""
  {
    if Importable(f) then [ImportedWord(f, language, id, now)] else []
  }

  /** The words built from the first `n` data rows; row `k` (line `k + 1`)
      gets the id `ids(k + 1)`, and a row without word or translation is skipped. */
  function Collect(rows: seq<CsvFields>, language: string, ids: nat -> string, now: int, n: int): seq<VocabularyWord>
    requires 0 <= n <= |rows|
  {
    Concat(RowParts(rows, language, ids, now), n)
  }

  /** The words of data line `i` (row `i - 1`). */
  function RowParts(rows: seq<CsvFields>, language: string, ids: nat -> string, now: int): nat -> seq<VocabularyWord> {
    (i: nat) => if 1 <= i <= |rows| then RowWord(rows[i - 1], language, ids(i), now) else []
  }

  /** The words imported from the lines of a CSV text. */
  function ImportedLines(lines: seq<string>, language: string, ids: nat -> string, now: int): seq<VocabularyWord>
    requires |lines| >= 1
  {
    Collect(RowsOf(lines), language, ids, now, |lines| - 1)
  }

  lemma RowsOfAt(lines: seq<string>, n: int)
    requires 1 <= |lines| && 0 <= n < |lines| - 1
    ensures RowsOf(lines)[n] == RowFields(Headers(lines), lines[n + 1])
  {
    MapSeqMeans(RowParser(Headers(lines)), lines[1..]);
  }

  lemma CollectStep(rows: seq<CsvFields>, language: string, ids: nat -> string, now: int, n: int)
    requires 0 <= n < |rows|
    ensures Collect(rows, language, ids, now, n + 1) == Collect(rows, language, ids, now, n) + RowWord(rows[n], language, ids(n + 1), now)
  {
  }

  /** The forEach over the headers of one data line, given its trimmed cells. */
  method ParseValues(headers: seq<string>, values: seq<string>) returns (fields: CsvFields)
    ensures fields == ParseCells(headers, values, |headers|)
  {
    fields := NoFields;
    var j := 0;
    while j < |headers|
      invariant 0 <= j <= |headers|
      invariant fields == ParseCells(headers, values, j)
    {
      fields := ApplyCell(fields, headers[j], Cell(values, j));
      j := j + 1;
    }
  }

  /** The words one data line contributes: none, or the word built from its
      cells when they set both word and translation. */
  method ImportLine(headers: seq<string>, line: string, language: string, id: string, now: int)
    returns (added: seq<VocabularyWord>)
    ensures added == RowWord(RowFields(headers, line), language, id, now)
  {
    var values := TrimAll(Split(line, ','));
    var fields := ParseValues(headers, values);
    if Importable(fields) {
      added := [ImportedWord(fields, language, id, now)];
    } else {
      added := [];
    }
  }

  /** The loop of importFromCSV over the lines after the header line;
      `ids(i)` stands for the generateId() call made for line `i`. */
  method ImportLines(lines: seq<string>, language: string, ids: nat -> string, now: int) returns (words: seq<VocabularyWord>)
    requires |lines| >= 1
    ensures words == ImportedLines(lines, language, ids, now)
  {
    var headers := Headers(lines);
    ghost var rows := RowsOf(lines);
    words := [];
    var n := 0;
    while n < |lines| - 1
      invariant 0 <= n <= |rows|
      invariant words == Collect(rows, language, ids, now, n)
    {
      var added := ImportLine(headers, lines[n + 1], language, ids(n + 1), now);
      RowsOfAt(lines, n);
      CollectStep(rows, language, ids, now, n);
      words := words + added;
      n := n + 1;
    }
  }

  /** importFromCSV: trims the text, splits it into lines, takes the trimmed
      first line's comma-separated cells as headers, and builds one word per
      later line that sets both word and translation. */
  method ImportFromCSV(csvText: string, language: string, ids: nat -> string, now: int) returns (words: seq<VocabularyWord>)
    ensures words == ImportedLines(Lines(csvText), language, ids, now)
  {
    var lines := Lines(csvText);
    words := ImportLines(lines, language, ids, now);
  }

  /** Every word carries the import language and a non-empty word and translation. */
  predicate AllImported(ws: seq<VocabularyWord>, language: string) {
    forall k :: 0 <= k < |ws| ==> ws[k].language == language && ws[k].word != "" && ws[k].translation != ""
  }

  lemma AllImportedAppend(a: seq<VocabularyWord>, b: seq<VocabularyWord>, language: string)
    requires AllImported(a, language) && AllImported(b, language)
    ensures AllImported(a + b, language)
  {
    forall k | 0 <= k < |a + b|
      ensures (a + b)[k].language == language && (a + b)[k].word != "" && (a + b)[k].translation != ""
    {
      if k < |a| { assert (a + b)[k] == a[k]; } else { assert (a + b)[k] == b[k - |a|]; }
    }
  }

  /** At most one word per data row; each has the given language and a
      non-empty word and translation. */
  lemma CollectFacts(rows: seq<CsvFields>, language: string, ids: nat -> string, now: int, n: int)
    requires 0 <= n <= |rows|
    ensures |Collect(rows, language, ids, now, n)| <= n
    ensures AllImported(Collect(rows, language, ids, now, n), language)
  {
    var parts := RowParts(rows, language, ids, now);
    var p := (w: VocabularyWord) => w.language == language && w.word != "" && w.translation != "";
    forall i | 1 <= i <= n ensures |parts(i)| <= 1 && forall k :: 0 <= k < |parts(i)| ==> p(parts(i)[k]) {
      assert parts(i) == RowWord(rows[i - 1], language, ids(i), now);
    }
    ConcatBound(parts, n);
    ConcatEvery(parts, n, p);
  }

  /** Import yields at most one word per data line, each in the requested
      language with a non-empty word and translation. */
  lemma ImportedWordsFacts(csvText: string, language: string, ids: nat -> string, now: int)
    ensures |ImportedLines(Lines(csvText), language, ids, now)| <= |Lines(csvText)| - 1
    ensures AllImported(ImportedLines(Lines(csvText), language, ids, now), language)
  {
    CollectFacts(RowsOf(Lines(csvText)), language, ids, now, |Lines(csvText)| - 1);
  }

  /* ---------------------------------------------------------------------
     Export. A cell holding `undefined` prints as the empty string; an
     object prints as "[object Object]"; Array.prototype.join glues cells. */

  function OrEmpty(v: Option<string>): string {
    match v
    case Some(x) => x
    case None => ""
  }

  function BoolText(b: bool): string { if b then "true" else "false" }

  const ObjectText: string := "[object Object]"

  /** The header row of the free exportToCSV. */
  const FreeHeaders: seq<string> := ["id", "word", "translation", "language", "pronunciation",
    "partOfSpeech", "difficulty", "frequency", "categories", "examples", "synonyms", "antonyms",
    "etymology", "notes", "isFavorite", "dateAdded", "dateModified", "audioUrl", "imageUrl"]

  function Sentences(examples: seq<Example>): (r: seq<string>)
    ensures |r| == |examples|
    ensures forall i :: 0 <= i < |examples| ==> r[i] == examples[i].sentence
  {
    seq(|examples|, i requires 0 <= i < |examples| => examples[i].sentence)
  }

  /** The cells of one row of the free exportToCSV, in header order. */
  function FreeCells(w: VocabularyWord, enc: Encoders): (r: seq<string>)
    ensures |r| == |FreeHeaders|
  {
    [w.id, w.word, w.translation, w.language, OrEmpty(w.pronunciation), w.partOfSpeech,
     w.difficulty, ObjectText, Join(w.categories, ";"), enc.sentencesJson(Sentences(w.examples)),
     Join(w.synonyms, ";"), Join(w.antonyms, ";"), if w.etymology.Some? then ObjectText else "",
     OrEmpty(w.notes), BoolText(w.isFavorite), enc.isoDate(w.dateAdded), enc.isoDate(w.dateModified),
     OrEmpty(w.audioUrl), OrEmpty(w.imageUrl)]
  }

  function Rows<T>(ws: seq<T>, row: T -> string): (r: seq<string>)
    ensures |r| == |ws|
    ensures forall k :: 0 <= k < |ws| ==> r[k] == row(ws[k])
  {
    seq(|ws|, k requires 0 <= k < |ws| => row(ws[k]))
  }

  function FreeRow(enc: Encoders): VocabularyWord -> string {
    w => Join(FreeCells(w, enc), ",")
  }

  /** exportToCSV: a header line, then one comma-joined line per word. */
  function ExportToCsv(ws: seq<VocabularyWord>, enc: Encoders): string {
    Join([Join(FreeHeaders, ",")] + Rows(ws, FreeRow(enc)), "\n")
  }

  /** The header row of the word database's csv export. */
  const ServiceHeaders: seq<string> := ["id", "word", "translation", "language", "pronunciation",
    "partOfSpeech", "difficulty", "writingFrequency", "speechFrequency", "frequencyRank",
    "categories", "synonyms", "antonyms", "etymology", "register", "emotionalConnotation"]

  /** The cells of one row of the word database's csv export, in header order;
      the etymology cell is the record's JSON text. */
  function ServiceCells(w: VocabularyWord, enc: Encoders): (r: seq<string>)
    ensures |r| == |ServiceHeaders|
  {
    [w.id, w.word, w.translation, w.language, OrEmpty(w.pronunciation), w.partOfSpeech,
     w.difficulty, enc.number(w.frequency.writingFrequency), enc.number(w.frequency.speechFrequency),
     IntToString(w.frequency.rank), Join(w.categories, ";"), Join(w.synonyms, ";"),
     Join(w.antonyms, ";"), if w.etymology.Some? then enc.etymologyJson(w.etymology.value) else "",
     OrEmpty(w.register), OrEmpty(w.emotionalConnotation)]
  }

  function ServiceRow(enc: Encoders): VocabularyWord -> string {
    w => Join(ServiceCells(w, enc), ",")
  }

  /** The csv branch of exportWords. */
  function ServiceCsv(ws: seq<VocabularyWord>, enc: Encoders): string {
    Join([Join(ServiceHeaders, ",")] + Rows(ws, ServiceRow(enc)), "\n")
  }

  /* ---------------------------------------------------------------------
     Export followed by import. */

  /** The field each service header selects on import: "partOfSpeech" is not
      among the importer's names ("part of speech", "pos"), so it selects none. */
  function ServiceColumn(k: int): Column {
    if k == 1 then WordColumn
    else if k == 2 then TranslationColumn
    else if k == 4 then PronunciationColumn
    else if k == 6 then DifficultyColumn
    else if k == 10 then CategoriesColumn
    else OtherColumn
  }

  lemma ServiceHeaderColumns()
    ensures forall k :: 0 <= k < |ServiceHeaders| ==> ColumnOf(ServiceHeaders[k]) == ServiceColumn(k)
  {
    LowerNoCapitals("word");
    LowerNoCapitals("translation");
    LowerNoCapitals("pronunciation");
    LowerNoCapitals("difficulty");
    LowerNoCapitals("categories");
    assert Lower("frequencyRank")[0] == 'f';
  }

  /** Each field the service export fills is selected by exactly one of its headers. */
  lemma ServiceColumnOnly(c: Column, k0: int)
    requires 0 <= k0 < |ServiceHeaders| && ServiceColumn(k0) == c && c != OtherColumn
    ensures ColumnOf(ServiceHeaders[k0]) == c
    ensures forall k :: 0 <= k < |ServiceHeaders| && k != k0 ==> ColumnOf(ServiceHeaders[k]) != c
  {
    ServiceHeaderColumns();
  }

  predicate NoEdgeSpace(c: string) {
    c == [] || (!IsSpace(c[0]) && !IsSpace(c[|c| - 1]))
  }

  /** A cell that survives the exporter's unquoted join: no comma, no line
      break, and nothing for the importer's trim to remove. */
  predicate CleanCell(c: string) {
    ',' !in c && '\n' !in c && NoEdgeSpace(c)
  }

  predicate CleanCells(cells: seq<string>) {
    forall i :: 0 <= i < |cells| ==> CleanCell(cells[i])
  }

  /** Splitting a row of clean cells on commas and trimming gives the cells back. */
  lemma CleanRowCells(cells: seq<string>)
    requires |cells| >= 1 && CleanCells(cells)
    ensures TrimAll(Split(Join(cells, ","), ',')) == cells
  {
    SplitJoin(cells, ',');
    TrimAllClean(cells);
  }

  lemma TrimAllClean(cells: seq<string>)
    requires CleanCells(cells)
    ensures TrimAll(cells) == cells
  {
    forall i | 0 <= i < |cells| ensures TrimAll(cells)[i] == cells[i] {
      assert CleanCell(cells[i]);
      TrimNoEdgeSpace(cells[i]);
    }
  }

  function NonEmpty(c: string): Option<string> {
    if c != "" then Some(c) else None
  }

  /** What the importer reads back from a clean row of the service export:
      word, translation, pronunciation, difficulty and categories, each only
      when its cell is non-empty, and never a part of speech. */
  function RestoredFields(w: VocabularyWord): CsvFields {
    CsvFields(NonEmpty(w.word), NonEmpty(w.translation), NonEmpty(OrEmpty(w.pronunciation)), None,
              NonEmpty(w.difficulty), SplitCategories(NonEmpty(Join(w.categories, ";"))))
  }

  /** The fields the importer takes from a row of cells under the service header. */
  lemma ServiceHeaderFields(cells: seq<string>)
    requires |cells| == |ServiceHeaders|
    ensures ParseCells(ServiceHeaders, cells, |ServiceHeaders|)
         == CsvFields(NonEmpty(cells[1]), NonEmpty(cells[2]), NonEmpty(cells[4]), None,
                      NonEmpty(cells[6]), SplitCategories(NonEmpty(cells[10])))
  {
    var h := ServiceHeaders;
    var p := ParseCells(h, cells, |h|);
    ParseCellsMeans(h, cells, |h|);
    ServiceFieldFrom(cells, WordColumn, 1);
    ServiceFieldFrom(cells, TranslationColumn, 2);
    ServiceFieldFrom(cells, PronunciationColumn, 4);
    ServiceFieldFrom(cells, DifficultyColumn, 6);
    ServiceFieldFrom(cells, CategoriesColumn, 10);
    ServiceHeaderColumns();
    LastValueAbsent(h, cells, |h|, PartOfSpeechColumn);
    assert p.word == NonEmpty(cells[1]);
    assert p.translation == NonEmpty(cells[2]);
    assert p.pronunciation == NonEmpty(cells[4]);
    assert p.partOfSpeech == None;
    assert p.difficulty == NonEmpty(cells[6]);
    assert p.categories == SplitCategories(NonEmpty(cells[10]));
  }

  /** A field the service header selects once takes that column's cell. */
  lemma ServiceFieldFrom(cells: seq<string>, c: Column, k0: int)
    requires |cells| == |ServiceHeaders|
    requires 0 <= k0 < |ServiceHeaders| && ServiceColumn(k0) == c && c != OtherColumn
    ensures LastValue(ServiceHeaders, cells, |ServiceHeaders|, c) == NonEmpty(cells[k0])
  {
    ServiceColumnOnly(c, k0);
    LastValueUnique(ServiceHeaders, cells, |ServiceHeaders|, c, k0);
  }

  /** The cells of a service row that the importer reads. */
  lemma ServiceCellsRead(w: VocabularyWord, enc: Encoders)
    ensures ServiceCells(w, enc)[1] == w.word && ServiceCells(w, enc)[2] == w.translation
    ensures ServiceCells(w, enc)[4] == OrEmpty(w.pronunciation) && ServiceCells(w, enc)[6] == w.difficulty
    ensures ServiceCells(w, enc)[10] == Join(w.categories, ";")
  {
  }

  lemma ServiceRowFields(w: VocabularyWord, enc: Encoders)
    requires CleanCells(ServiceCells(w, enc))
    ensures RowFields(ServiceHeaders, ServiceRow(enc)(w)) == RestoredFields(w)
  {
    var cells := ServiceCells(w, enc);
    var line := ServiceRow(enc)(w);
    assert line == Join(cells, ",");
    CleanRowCells(cells);
    assert RowFields(ServiceHeaders, line) == ParseCells(ServiceHeaders, cells, |ServiceHeaders|);
    ServiceHeaderFields(cells);
    ServiceCellsRead(w, enc);
  }

  /** A comma-joined row of clean cells is a single line, and unless it is one
      empty cell it ends in a character trim keeps. */
  lemma CleanRowShape(cells: seq<string>)
    requires |cells| >= 2 && CleanCells(cells)
    ensures '\n' !in Join(cells, ",")
    ensures Join(cells, ",") != [] && !IsSpace(Join(cells, ",")[|Join(cells, ",")| - 1])
  {
    JoinAvoids(cells, ",", '\n');
    JoinSnoc(cells, ",");
    var row := Join(cells, ",");
    var last := cells[|cells| - 1];
    assert row == Join(cells[..|cells| - 1], ",") + "," + last;
    if last == [] {
      assert row[|row| - 1] == ',';
    } else {
      assert CleanCell(last);
      assert row[|row| - 1] == last[|last| - 1];
    }
  }

  /** Lines joined by line breaks, the first starting and the last ending
      with a character trim keeps, are left alone by trim. */
  lemma JoinedLinesNoEdgeSpace(lines: seq<string>)
    requires |lines| >= 1 && lines[0] != [] && !IsSpace(lines[0][0])
    requires lines[|lines| - 1] != [] && !IsSpace(lines[|lines| - 1][|lines[|lines| - 1]| - 1])
    ensures NoEdgeSpace(Join(lines, "\n"))
  {
    var t := Join(lines, "\n");
    JoinStartsWithFirst(lines, "\n");
    assert t[0] == t[..|lines[0]|][0] == lines[0][0];
    if |lines| >= 2 {
      JoinSnoc(lines, "\n");
      var l := lines[|lines| - 1];
      assert t == Join(lines[..|lines| - 1], "\n") + "\n" + l;
      assert t[|t| - 1] == l[|l| - 1];
    }
  }

  predicate Letters(s: string) {
    forall i :: 0 <= i < |s| ==> 'a' <= s[i] <= 'z' || 'A' <= s[i] <= 'Z'
  }

  lemma LettersClean(s: string)
    requires Letters(s)
    ensures CleanCell(s)
  {
    if s != [] {
      assert 'a' <= s[0] <= 'z' || 'A' <= s[0] <= 'Z';
      assert 'a' <= s[|s| - 1] <= 'z' || 'A' <= s[|s| - 1] <= 'Z';
    }
  }

  lemma ServiceHeadersClean()
    ensures CleanCells(ServiceHeaders)
    ensures ServiceHeaders[0][0] == 'i'
  {
    forall i | 0 <= i < |ServiceHeaders| ensures CleanCell(ServiceHeaders[i]) {
      if i < 4 { ServiceLetters0(i); }
      else if i < 8 { ServiceLetters1(i); }
      else if i < 12 { ServiceLetters2(i); }
      else { ServiceLetters3(i); }
      LettersClean(ServiceHeaders[i]);
    }
  }

  // The header names are plain letters, four at a time.
  lemma ServiceLetters0(i: int) requires 0 <= i < 4 ensures Letters(ServiceHeaders[i]) {}
  lemma ServiceLetters1(i: int) requires 4 <= i < 8 ensures Letters(ServiceHeaders[i]) {}
  lemma ServiceLetters2(i: int) requires 8 <= i < 12 ensures Letters(ServiceHeaders[i]) {}
  lemma ServiceLetters3(i: int) requires 12 <= i < 16 ensures Letters(ServiceHeaders[i]) {}

  /** Every row of the export is made of clean cells. */
  predicate CleanExport(ws: seq<VocabularyWord>, enc: Encoders) {
    forall k :: 0 <= k < |ws| ==> CleanCells(ServiceCells(ws[k], enc))
  }

  /** The importer sees the export's header line and then one line per word. */
  lemma ServiceCsvLines(ws: seq<VocabularyWord>, enc: Encoders)
    requires CleanExport(ws, enc)
    ensures Lines(ServiceCsv(ws, enc)) == [Join(ServiceHeaders, ",")] + Rows(ws, ServiceRow(enc))
  {
    var lines := [Join(ServiceHeaders, ",")] + Rows(ws, ServiceRow(enc));
    var text := ServiceCsv(ws, enc);
    assert text == Join(lines, "\n");
    ServiceLinesShape(ws, enc);
    JoinedLinesNoEdgeSpace(lines);
    assert NoEdgeSpace(text);
    TrimNoEdgeSpace(text);
    assert Trim(text) == text;
    SplitJoin(lines, '\n');
    assert Split(text, '\n') == lines;
  }

  /** The lines of the export hold no line break; the first starts and the
      last ends with a character trim keeps. */
  lemma ServiceLinesShape(ws: seq<VocabularyWord>, enc: Encoders)
    requires CleanExport(ws, enc)
    ensures var lines := [Join(ServiceHeaders, ",")] + Rows(ws, ServiceRow(enc));
      && (forall i :: 0 <= i < |lines| ==> '\n' !in lines[i])
      && lines[0] != [] && !IsSpace(lines[0][0])
      && lines[|lines| - 1] != [] && !IsSpace(lines[|lines| - 1][|lines[|lines| - 1]| - 1])
  {
    var header := Join(ServiceHeaders, ",");
    var rows := Rows(ws, ServiceRow(enc));
    var lines := [header] + rows;
    ServiceHeadersClean();
    CleanRowShape(ServiceHeaders);
    forall k | 0 <= k < |rows|
      ensures '\n' !in rows[k] && rows[k] != [] && !IsSpace(rows[k][|rows[k]| - 1])
    {
      var cells := ServiceCells(ws[k], enc);
      assert CleanCells(cells);
      CleanRowShape(cells);
      assert rows[k] == Join(cells, ",");
    }
    forall i | 0 <= i < |lines| ensures '\n' !in lines[i] {
      if i > 0 { assert lines[i] == rows[i - 1]; }
    }
    JoinStartsWithFirst(ServiceHeaders, ",");
    assert header[0] == header[..|ServiceHeaders[0]|][0] == 'i';
  }

  /** The export's header line is read back as the export's headers. */
  lemma ServiceCsvHeaders(ws: seq<VocabularyWord>, enc: Encoders)
    requires CleanExport(ws, enc)
    ensures Headers(Lines(ServiceCsv(ws, enc))) == ServiceHeaders
  {
    ServiceCsvLines(ws, enc);
    ServiceHeadersClean();
    CleanRowCells(ServiceHeaders);
  }

  /** Data line `k` of the export is read back as the restored fields of word `k`. */
  lemma ServiceCsvRow(ws: seq<VocabularyWord>, enc: Encoders, k: int)
    requires CleanExport(ws, enc) && 0 <= k < |ws|
    ensures |RowsOf(Lines(ServiceCsv(ws, enc)))| == |ws|
    ensures RowsOf(Lines(ServiceCsv(ws, enc)))[k] == RestoredFields(ws[k])
  {
    var lines := Lines(ServiceCsv(ws, enc));
    ServiceCsvLines(ws, enc);
    ServiceCsvHeaders(ws, enc);
    RowsOfAt(lines, k);
    assert lines[k + 1] == ServiceRow(enc)(ws[k]);
    ServiceRowFields(ws[k], enc);
  }

  /** When every row is importable, row `k` yields word `k`, with id `ids(k + 1)`. */
  lemma CollectAll(rows: seq<CsvFields>, language: string, ids: nat -> string, now: int, n: int)
    requires 0 <= n <= |rows|
    requires forall k :: 0 <= k < |rows| ==> Importable(rows[k])
    ensures |Collect(rows, language, ids, now, n)| == n
    ensures forall k :: 0 <= k < n ==> Collect(rows, language, ids, now, n)[k] == ImportedWord(rows[k], language, ids(k + 1), now)
  {
    var parts := RowParts(rows, language, ids, now);
    forall i | 1 <= i <= n ensures |parts(i)| == 1 {
      assert parts(i) == RowWord(rows[i - 1], language, ids(i), now);
    }
    ConcatSingles(parts, n);
    var c := Collect(rows, language, ids, now, n);
    assert c == Concat(parts, n);
    forall k | 0 <= k < n ensures c[k] == ImportedWord(rows[k], language, ids(k + 1), now) {
      assert c[k] == parts(k + 1)[0];
      assert parts(k + 1) == RowWord(rows[k], language, ids(k + 1), now);
    }
  }

  /** `back` holds one word per word of `ws`, each rebuilt from the columns
      the importer reads back, with the k-th fresh id. */
  predicate ReimportedAs(back: seq<VocabularyWord>, ws: seq<VocabularyWord>, language: string, ids: nat -> string, now: int) {
    && |back| == |ws|
    && forall k :: 0 <= k < |ws| ==>
         Importable(RestoredFields(ws[k])) && back[k] == ImportedWord(RestoredFields(ws[k]), language, ids(k + 1), now)
  }

  /** Importing the word database's csv export gives back one word per
      exported word, in order, built from the restored fields, provided no
      cell holds a comma, a line break or edge white space and every word has
      a word and a translation. */
  lemma ServiceCsvRoundTrip(ws: seq<VocabularyWord>, enc: Encoders, language: string, ids: nat -> string, now: int)
    requires CleanExport(ws, enc)
    requires forall k :: 0 <= k < |ws| ==> ws[k].word != "" && ws[k].translation != ""
    ensures ReimportedAs(ImportedLines(Lines(ServiceCsv(ws, enc)), language, ids, now), ws, language, ids, now)
  {
    var lines := Lines(ServiceCsv(ws, enc));
    var rows := RowsOf(lines);
    ServiceCsvLines(ws, enc);
    forall k | 0 <= k < |rows| ensures rows[k] == RestoredFields(ws[k]) && Importable(rows[k]) {
      ServiceCsvRow(ws, enc, k);
    }
    CollectAll(rows, language, ids, now, |rows|);
    var imported := ImportedLines(lines, language, ids, now);
    assert imported == Collect(rows, language, ids, now, |rows|);
    forall k | 0 <= k < |ws| ensures Importable(RestoredFields(ws[k])) && imported[k] == ImportedWord(RestoredFields(ws[k]), language, ids(k + 1), now) {
      assert imported[k] == ImportedWord(rows[k], language, ids(k + 1), now);
      assert rows[k] == RestoredFields(ws[k]);
    }
  }

  /** A category list the export and import carry unchanged. */
  predicate CleanCategories(cs: seq<string>) {
    forall i :: 0 <= i < |cs| ==> cs[i] != "" && ';' !in cs[i] && NoEdgeSpace(cs[i])
  }

  /** What survives the round trip: word, translation and categories; the
      pronunciation unless it was empty; the difficulty unless it was empty.
      The part of speech always comes back as "noun". */
  lemma RestoredWord(w: VocabularyWord, language: string, id: string, now: int)
    requires w.word != "" && w.translation != ""
    requires CleanCategories(w.categories)
    ensures var r := ImportedWord(RestoredFields(w), language, id, now);
      && r.word == w.word && r.translation == w.translation && r.language == language && r.id == id
      && r.pronunciation == (if w.pronunciation == Some("") then None else w.pronunciation)
      && r.partOfSpeech == "noun"
      && r.difficulty == (if w.difficulty == "" then "beginner" else w.difficulty)
      && r.categories == w.categories
  {
    RestoredCategories(w.categories);
  }

  /** Clean categories joined with ";" split back into themselves. */
  lemma RestoredCategories(cs: seq<string>)
    requires CleanCategories(cs)
    ensures SplitCategories(NonEmpty(Join(cs, ";"))).GetOr([]) == cs
  {
    if cs != [] {
      SplitJoin(cs, ';');
      JoinStartsWithFirst(cs, ";");
      assert Join(cs, ";") != "";
      forall i | 0 <= i < |cs| ensures Trim(cs[i]) == cs[i] {
        TrimNoEdgeSpace(cs[i]);
      }
      assert TrimAll(Split(Join(cs, ";"), ';')) == cs;
    }
  }

  /** Export and import are not inverses once a cell holds a comma: a
      translation "house, home" is read back as "house". */
  lemma TranslationHeader()
    ensures ColumnOf("translation") == TranslationColumn
  {
    LowerNoCapitals("translation");
  }

  lemma UnquotedCommaSplitsCell()
    ensures RowFields(["word", "translation"], Join(["casa", "house, home"], ",")).translation == Some("house")
  {
    var values := TrimAll(Split(Join(["casa", "house, home"], ","), ','));
    CommaLineCells();
    TranslationFromSecondCell(values);
  }

  lemma CommaLineCells()
    ensures |TrimAll(Split(Join(["casa", "house, home"], ","), ','))| == 3
    ensures TrimAll(Split(Join(["casa", "house, home"], ","), ','))[1] == "house"
  {
    var cells := ["casa", "house", " home"];
    assert Join(cells[2..], ",") == " home";
    assert Join(cells[1..], ",") == "house, home";
    assert Join(["casa", "house, home"], ",") == Join(cells, ",");
    SplitJoin(cells, ',');
    TrimNoEdgeSpace("house");
  }

  lemma TranslationFromSecondCell(values: seq<string>)
    requires |values| >= 2 && values[1] == "house"
    ensures ParseCells(["word", "translation"], values, 2).translation == Some("house")
  {
    var headers := ["word", "translation"];
    TranslationHeader();
    assert ParseCells(headers, values, 2) == ApplyCell(ParseCells(headers, values, 1), headers[1], values[1]);
  }

  /** The free export is a header line and then one line per word, provided
      no cell holds a comma or a line break. */
  lemma ExportToCsvLines(ws: seq<VocabularyWord>, enc: Encoders)
    requires forall k :: 0 <= k < |ws| ==> CleanCells(FreeCells(ws[k], enc))
    ensures Split(ExportToCsv(ws, enc), '\n') == [Join(FreeHeaders, ",")] + Rows(ws, FreeRow(enc))
  {
    var header := Join(FreeHeaders, ",");
    var rows := Rows(ws, FreeRow(enc));
    var lines := [header] + rows;
    FreeHeadersClean();
    CleanRowShape(FreeHeaders);
    forall i | 0 <= i < |lines| ensures '\n' !in lines[i] {
      if i > 0 {
        assert lines[i] == rows[i - 1] == FreeRow(enc)(ws[i - 1]);
        FreeRowRead(ws[i - 1], enc);
      }
    }
    SplitJoin(lines, '\n');
    assert ExportToCsv(ws, enc) == Join(lines, "\n");
  }

  /** Each line of the free export splits on commas into its word's cells. */
  lemma ExportToCsvRowCells(ws: seq<VocabularyWord>, enc: Encoders)
    requires forall k :: 0 <= k < |ws| ==> CleanCells(FreeCells(ws[k], enc))
    ensures forall k :: 0 <= k < |ws| ==> TrimAll(Split(Rows(ws, FreeRow(enc))[k], ',')) == FreeCells(ws[k], enc)
  {
    forall k | 0 <= k < |ws| ensures TrimAll(Split(Rows(ws, FreeRow(enc))[k], ',')) == FreeCells(ws[k], enc) {
      FreeRowRead(ws[k], enc);
    }
  }

  /** One row of the free export: no line break, and read back as its cells. */
  lemma FreeRowRead(w: VocabularyWord, enc: Encoders)
    requires CleanCells(FreeCells(w, enc))
    ensures '\n' !in FreeRow(enc)(w)
    ensures TrimAll(Split(FreeRow(enc)(w), ',')) == FreeCells(w, enc)
  {
    var cells := FreeCells(w, enc);
    assert FreeRow(enc)(w) == Join(cells, ",");
    CleanRowShape(cells);
    CleanRowCells(cells);
  }

  lemma FreeHeadersClean()
    ensures CleanCells(FreeHeaders)
  {
    forall i | 0 <= i < |FreeHeaders| ensures CleanCell(FreeHeaders[i]) {
      if i < 4 { FreeLetters0(i); }
      else if i < 8 { FreeLetters1(i); }
      else if i < 12 { FreeLetters2(i); }
      else if i < 16 { FreeLetters3(i); }
      else { FreeLetters4(i); }
      LettersClean(FreeHeaders[i]);
    }
  }

  lemma FreeLetters0(i: int) requires 0 <= i < 4 ensures Letters(FreeHeaders[i]) {}
  lemma FreeLetters1(i: int) requires 4 <= i < 8 ensures Letters(FreeHeaders[i]) {}
  lemma FreeLetters2(i: int) requires 8 <= i < 12 ensures Letters(FreeHeaders[i]) {}
  lemma FreeLetters3(i: int) requires 12 <= i < 16 ensures Letters(FreeHeaders[i]) {}
  lemma FreeLetters4(i: int) requires 16 <= i < 19 ensures Letters(FreeHeaders[i]) {}
}
