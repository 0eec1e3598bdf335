/**
 * scripts/csv-to-json.py: validation and normalisation of CSV rows into HS code records,
 * in the three layouts `basic`, `extended` and `bilingual`.
 */
module CsvToJson {
  import opened Common
  import opened PyStr
  import opened Seqs
  import opened Keywords

  datatype Format = Basic | Extended | Bilingual

  function FormatName(f: Format): string
  {
    match f
    case Basic => "basic"
    case Extended => "extended"
    case Bilingual => "bilingual"
  }

  /** `__init__` with `validate_format`: the lower-cased name must be a known layout. */
  function ParseFormat(name: string): (r: Result<Format>)
    ensures r.Ok? <==> Lower(name) in {"basic", "extended", "bilingual"}
    ensures r.Ok? ==> FormatName(r.value) == Lower(name)
  {
    var n := Lower(name);
    if n == "basic" then Ok(Basic)
    else if n == "extended" then Ok(Extended)
    else if n == "bilingual" then Ok(Bilingual)
    else Err("Invalid format. Must be one of: basic, extended, bilingual")
  }

  /** One converted record; the `_vi` fields are absent unless the row supplied them. */
  datatype HsCode = HsCode(
    code: string,
    menu: string,
    description: string,
    chapter: string,
    section: string,
    keywords: seq<string>,
    menuVi: Option<string>,
    descriptionVi: Option<string>,
    keywordsVi: Option<seq<string>>)

  // ---------------------------------------------------------------- keywords lists

  /** What `parse_keywords` yields: a non-empty, stripped text with no comma. */
  predicate IsKeyword(k: string)
  {
    k != "" && ',' !in k && IsStripped(k)
  }

  /** `[kw.strip() for kw in pieces if kw.strip()]` */
  function StrippedPieces(pieces: seq<string>): (r: seq<string>)
    ensures forall k :: 0 <= k < |r| ==> r[k] != "" && IsStripped(r[k])
  {
    if pieces == [] then []
    else if Strip(pieces[0]) == "" then StrippedPieces(pieces[1..])
    else [Strip(pieces[0])] + StrippedPieces(pieces[1..])
  }

  /** Stripping removes no comma that was not there to begin with. */
  lemma {:induction false} StrippedPiecesNoComma(pieces: seq<string>)
    requires forall k :: 0 <= k < |pieces| ==> ',' !in pieces[k]
    ensures forall k :: 0 <= k < |StrippedPieces(pieces)| ==> IsKeyword(StrippedPieces(pieces)[k])
  {
    if pieces != [] {
      StripDropsOnly(pieces[0], ',');
      StrippedPiecesNoComma(pieces[1..]);
    }
  }

  /** `parse_keywords`: the non-empty, stripped pieces of a comma-separated list. */
  function ParseKeywords(s: string): (r: seq<string>)
    ensures AllSpace(s) ==> r == []
    ensures forall k :: 0 <= k < |r| ==> IsKeyword(r[k])
  {
    if s == "" || Strip(s) == "" then []
    else
      StrippedPiecesNoComma(Split(s, ','));
      StrippedPieces(Split(s, ','))
  }

  lemma StrippedPiecesCons(p: string, rest: seq<string>)
    ensures StrippedPieces([p] + rest) == (if Strip(p) != "" then [Strip(p)] else []) + StrippedPieces(rest)
  {
    assert ([p] + rest)[1..] == rest;
  }

  lemma StrippedPiecesSpaced(p: string, rest: seq<string>)
    ensures StrippedPieces([" " + p] + rest) == StrippedPieces([p] + rest)
  {
    StripLeadingSpace(' ', p);
    StrippedPiecesCons(" " + p, rest);
    StrippedPiecesCons(p, rest);
  }

  /** A space before the first piece does not change the stripped pieces. */
  lemma StrippedPiecesOfSpaced(t: string)
    ensures StrippedPieces(Split(" " + t, ',')) == StrippedPieces(Split(t, ','))
  {
    var pieces := Split(t, ',');
    SplitPrefix(" ", t, ',');
    StrippedPiecesSpaced(pieces[0], pieces[1..]);
    assert [pieces[0]] + pieces[1..] == pieces;
  }

  /** One step of the round trip: the first keyword, then the pieces after its comma. */
  lemma StrippedPiecesOfJoinStep(head: string, tail: seq<string>)
    requires tail != []
    requires IsKeyword(head)
    ensures StrippedPieces(Split(Join([head] + tail, ", "), ','))
         == [head] + StrippedPieces(Split(Join(tail, ", "), ','))
  {
    var rest := Join(tail, ", ");
    JoinCons(head, tail, ", ");
    assert Join([head] + tail, ", ") == head + [','] + (" " + rest);
    SplitAfterSeparator(head, " " + rest, ',');
    StrippedPiecesCons(head, Split(" " + rest, ','));
    StripStripped(head);
    StrippedPiecesOfSpaced(rest);
  }

  lemma {:induction false} StrippedPiecesOfJoin(ks: seq<string>)
    requires forall k :: 0 <= k < |ks| ==> IsKeyword(ks[k])
    ensures StrippedPieces(Split(Join(ks, ", "), ',')) == ks
  {
    if ks == [] {
    } else if |ks| == 1 {
      StripStripped(ks[0]);
      SplitPrefix(ks[0], "", ',');
      assert ks[0] + "" == ks[0];
      StrippedPiecesCons(ks[0], []);
    } else {
      StrippedPiecesOfJoinStep(ks[0], ks[1..]);
      StrippedPiecesOfJoin(ks[1..]);
      assert [ks[0]] + ks[1..] == ks;
    }
  }

  lemma JoinStartsWithFirst(ks: seq<string>, sep: string)
    requires ks != []
    ensures StartsWith(Join(ks, sep), ks[0])
  {
    if |ks| > 1 {
      assert Join(ks, sep) == ks[0] + (sep + Join(ks[1..], sep));
    }
  }

  lemma JoinNotAllSpace(ks: seq<string>)
    requires ks != [] && IsKeyword(ks[0])
    ensures !AllSpace(Join(ks, ", "))
  {
    JoinStartsWithFirst(ks, ", ");
    assert Join(ks, ", ")[0] == ks[0][0];
  }

  /** What `', '.join(keywords)` writes (as the bilingual scripts do), `parse_keywords` reads back. */
  lemma ParseKeywordsOfJoin(ks: seq<string>)
    requires forall k :: 0 <= k < |ks| ==> IsKeyword(ks[k])
    ensures ParseKeywords(Join(ks, ", ")) == ks
  {
    if ks != [] {
      JoinNotAllSpace(ks);
      StrippedPiecesOfJoin(ks);
    }
  }

  // ---------------------------------------------------------------- menu label

  /** `re.sub(r'[,.]$', '', s)`: one trailing comma or full stop goes. */
  function DropTrailingPunct(s: string): (r: string)
    ensures StartsWith(s, r)
  {
    if s != [] && s[|s| - 1] in {',', '.'} then s[..|s| - 1] else s
  }

  /** The first eight words of a description, joined by single spaces. */
  function FirstWords(description: string): string
  {
    Join(Prefix(Words(description), 8), " ")
  }

  /**
   * `extract_menu_from_description`: at most 100 characters taken from the first eight words;
   * an over-long label keeps 97 characters and ends with "...".
   */
  function ExtractMenu(description: string): (r: string)
    ensures description == "" ==> r == ""
    ensures |r| <= 100
    ensures StartsWith(FirstWords(description), r)
         || (|r| == 100 && EndsWith(r, "...") && StartsWith(FirstWords(description), r[..97]))
    ensures description != "" && |DropTrailingPunct(FirstWords(description))| > 100 ==>
      && |r| == 100 && EndsWith(r, "...")
      && r[..97] == DropTrailingPunct(FirstWords(description))[..97]
  {
    if description == "" then ""
    else
      var menu := DropTrailingPunct(FirstWords(description));
      if |menu| <= 100 then menu else menu[..97] + "..."
  }

  /** Words, the last of them without one trailing comma or full stop (and gone if that was all). */
  function MenuWords(ws: seq<string>): seq<string>
  {
    if ws == [] then []
    else
      var last := DropTrailingPunct(ws[|ws| - 1]);
      ws[..|ws| - 1] + (if last == "" then [] else [last])
  }

  /** Joining words and dropping one trailing comma or full stop leaves `MenuWords` of them. */
  lemma MenuWordsOfJoin(ws: seq<string>)
    requires forall k :: 0 <= k < |ws| ==> ws[k] != [] && NoSpace(ws[k])
    ensures Words(DropTrailingPunct(Join(ws, " "))) == MenuWords(ws)
  {
    if ws != [] {
      var last := ws[|ws| - 1];
      if last[|last| - 1] in {',', '.'} {
        MenuWordsOfPunctJoin(ws);
      } else {
        MenuWordsOfPlainJoin(ws);
      }
    }
  }

  lemma MenuWordsOfPunctJoin(ws: seq<string>)
    requires ws != [] && forall k :: 0 <= k < |ws| ==> ws[k] != [] && NoSpace(ws[k])
    requires var last := ws[|ws| - 1]; last[|last| - 1] in {',', '.'}
    ensures Words(DropTrailingPunct(Join(ws, " "))) == MenuWords(ws)
  {
    JoinEndsWithLast(ws, " ");
    WordsOfJoinButLast(ws);
  }

  lemma MenuWordsOfPlainJoin(ws: seq<string>)
    requires ws != [] && forall k :: 0 <= k < |ws| ==> ws[k] != [] && NoSpace(ws[k])
    requires var last := ws[|ws| - 1]; last[|last| - 1] !in {',', '.'}
    ensures Words(DropTrailingPunct(Join(ws, " "))) == MenuWords(ws)
  {
    JoinEndsWithLast(ws, " ");
    WordsOfJoin(ws);
    assert ws[..|ws| - 1] + [ws[|ws| - 1]] == ws;
  }

  /**
   * A label that fits is made of the description's first eight words, the last of them without
   * one trailing comma or full stop.
   */
  lemma MenuIsFirstEightWords(description: string)
    requires |DropTrailingPunct(FirstWords(description))| <= 100
    ensures Words(ExtractMenu(description)) == MenuWords(Prefix(Words(description), 8))
  {
    if description == "" {
      assert Words(description) == [];
    } else {
      MenuWordsOfJoin(Prefix(Words(description), 8));
    }
  }

  // ---------------------------------------------------------------- generated keywords

  const CommonWords: set<string> := {
    "the", "a", "an", "and", "or", "but", "in", "on", "at", "to", "for",
    "of", "with", "by", "from", "is", "are", "be", "been", "being",
    "have", "has", "had", "do", "does", "did", "will", "would", "could",
    "should", "may", "might", "must", "can", "that", "this", "these",
    "those", "as", "if", "while", "when", "where"}

  /** The character class `[,;:()\-]` that `_generate_keywords` blanks out. */
  const KeywordPunctuation: set<char> := {',', ';', ':', '(', ')', '-'}

  /** The words of the lower-cased description with `[,;:()\-]` turned into spaces. */
  function DescriptionWords(description: string): seq<string>
  {
    Words(ReplaceChars(Lower(description), KeywordPunctuation, ' '))
  }

  /** `[w for w in words if w not in common_words and len(w) > 2]`, before de-duplication. */
  function Candidates(description: string): seq<string>
  {
    Filtered(DescriptionWords(description), CommonWords)
  }

  /** What `_generate_keywords` returns. */
  function GeneratedKeywords(description: string): seq<string>
  {
    Prefix(FirstOccurrences(Candidates(description)), 10)
  }

  /**
   * Generated keywords: at most ten, no duplicates, each a word of the description longer than
   * two characters and not a common word, in the order of first occurrence in the description.
   * They are the first ten such words: any such word left out occurs first after all of them,
   * and with fewer than ten every such word is present.
   */
  lemma GeneratedKeywordsProperties(description: string)
    ensures var r := GeneratedKeywords(description);
      var ws := DescriptionWords(description);
      && |r| <= 10
      && Distinct(r)
      && (forall k :: 0 <= k < |r| ==> |r[k]| > 2 && r[k] !in CommonWords && r[k] in ws)
      && (forall i, j :: 0 <= i < j < |r| ==> FirstIndex(ws, r[i]) < FirstIndex(ws, r[j]))
      && (forall w, k :: w in ws && |w| > 2 && w !in CommonWords && w !in r && 0 <= k < |r| ==>
            FirstIndex(ws, r[k]) < FirstIndex(ws, w))
      && (|r| < 10 ==> forall w :: w in ws && |w| > 2 && w !in CommonWords ==> w in r)
  {
    FirstDistinctFiltered(DescriptionWords(description), CommonWords, 10);
  }

  /** `_generate_keywords`: the seen-set loop over the candidates, then the first ten. */
  method GenerateKeywords(description: string) returns (keywords: seq<string>)
    ensures keywords == GeneratedKeywords(description)
  {
    if description == "" {
      return [];
    }
    var words := Candidates(description);
    var seen: set<string> := {};
    var unique: seq<string> := [];
    for i := 0 to |words|
      invariant unique == FirstOccurrences(words[..i])
      invariant forall w :: w in seen <==> w in unique
    {
      var kw := words[i];
      assert words[..i + 1][..i] == words[..i];
      if kw !in seen {
        seen := seen + {kw};
        unique := unique + [kw];
      }
    }
    assert words[..|words|] == words;
    keywords := Prefix(unique, 10);
  }

  // ---------------------------------------------------------------- rows

  /** `row.get(key, '').strip()` */
  function Field(row: Row, key: string): string
  {
    Strip(Get(row, key))
  }

  /** `re.match(r'^\d{6}$', code)` on a stripped code: six digits. */
  predicate IsSixDigitCode(code: string)
  {
    |code| == 6 && forall i :: 0 <= i < 6 ==> IsDigit(code[i])
  }

  /** `convert_basic_row` */
  function ConvertBasicRow(row: Row): (r: Option<HsCode>)
    ensures r.Some? <==>
      && Field(row, "code") != "" && Field(row, "description") != ""
      && Field(row, "chapter") != "" && Field(row, "section") != ""
      && IsSixDigitCode(Field(row, "code"))
    ensures r.Some? ==>
      && r.value.code == Field(row, "code") && r.value.description == Field(row, "description")
      && r.value.chapter == Field(row, "chapter") && r.value.section == Field(row, "section")
      && r.value.menu == ExtractMenu(Field(row, "description"))
      && r.value.keywords == GeneratedKeywords(Field(row, "description"))
      && r.value.menuVi.None? && r.value.descriptionVi.None? && r.value.keywordsVi.None?
  {
    if || Field(row, "code") == "" || Field(row, "description") == ""
       || Field(row, "chapter") == "" || Field(row, "section") == "" then None
    else if !IsSixDigitCode(Field(row, "code")) then None
    else Some(HsCode(Field(row, "code"), ExtractMenu(Field(row, "description")),
                     Field(row, "description"), Field(row, "chapter"), Field(row, "section"),
                     GeneratedKeywords(Field(row, "description")), None, None, None))
  }

  /** `parse_keywords(s) or _generate_keywords(description)` */
  function KeywordsOrGenerated(keywords: string, description: string): (r: seq<string>)
    ensures ParseKeywords(keywords) != [] ==> r == ParseKeywords(keywords)
    ensures ParseKeywords(keywords) == [] ==> r == GeneratedKeywords(description)
  {
    var parsed := ParseKeywords(keywords);
    if parsed != [] then parsed else GeneratedKeywords(description)
  }

  /** A keyword cell written as `', '.join(ks)` gives back `ks`; nothing is generated then. */
  lemma KeywordCellReadBack(ks: seq<string>, description: string)
    requires ks != [] && forall k :: 0 <= k < |ks| ==> IsKeyword(ks[k])
    ensures KeywordsOrGenerated(Join(ks, ", "), description) == ks
  {
    ParseKeywordsOfJoin(ks);
  }

  /**
   * A record never goes without keywords when its description has a word longer than two
   * characters that is not a common word, whatever its keyword cell holds.
   */
  lemma KeywordsPresent(keywords: string, description: string, w: string)
    requires w in DescriptionWords(description) && |w| > 2 && w !in CommonWords
    ensures KeywordsOrGenerated(keywords, description) != []
  {
    if ParseKeywords(keywords) == [] {
      FirstDistinctFiltered(DescriptionWords(description), CommonWords, 10);
      var r := GeneratedKeywords(description);
      if |r| < 10 {
        assert w in r;
      }
    }
  }

  /** The five fields the extended and bilingual layouts require. */
  predicate HasRequiredFields(row: Row)
  {
    && Field(row, "code") != "" && Field(row, "menu") != "" && Field(row, "description") != ""
    && Field(row, "chapter") != "" && Field(row, "section") != ""
  }

  /** `convert_extended_row` */
  function ConvertExtendedRow(row: Row): (r: Option<HsCode>)
    ensures r.Some? <==> HasRequiredFields(row) && IsSixDigitCode(Field(row, "code"))
    ensures r.Some? ==>
      && r.value.code == Field(row, "code") && r.value.menu == Field(row, "menu")
      && r.value.description == Field(row, "description")
      && r.value.chapter == Field(row, "chapter") && r.value.section == Field(row, "section")
      && r.value.keywords == KeywordsOrGenerated(Field(row, "keywords"), Field(row, "description"))
      && r.value.menuVi.None? && r.value.descriptionVi.None? && r.value.keywordsVi.None?
  {
    if !HasRequiredFields(row) || !IsSixDigitCode(Field(row, "code")) then None
    else Some(HsCode(Field(row, "code"), Field(row, "menu"), Field(row, "description"),
                     Field(row, "chapter"), Field(row, "section"),
                     KeywordsOrGenerated(Field(row, "keywords"), Field(row, "description")),
                     None, None, None))
  }

  function OptionalText(s: string): Option<string>
  {
    if s != "" then Some(s) else None
  }

  /** `convert_bilingual_row`: the extended record plus the Vietnamese fields that are present. */
  function ConvertBilingualRow(row: Row): (r: Option<HsCode>)
    ensures r.Some? <==> HasRequiredFields(row) && IsSixDigitCode(Field(row, "code"))
    ensures r.Some? ==>
      && r.value.(menuVi := None, descriptionVi := None, keywordsVi := None) == ConvertExtendedRow(row).value
      && (r.value.menuVi.Some? <==> Field(row, "menu_vi") != "")
      && (r.value.menuVi.Some? ==> r.value.menuVi.value == Field(row, "menu_vi"))
      && (r.value.descriptionVi.Some? <==> Field(row, "description_vi") != "")
      && (r.value.descriptionVi.Some? ==> r.value.descriptionVi.value == Field(row, "description_vi"))
      && (r.value.keywordsVi.Some? <==> Field(row, "keywords_vi") != "")
      && (r.value.keywordsVi.Some? ==> r.value.keywordsVi.value == ParseKeywords(Field(row, "keywords_vi")))
  {
    match ConvertExtendedRow(row)
    case None => None
    case Some(h) =>
      var keywordsVi := Field(row, "keywords_vi");
      Some(h.(menuVi := OptionalText(Field(row, "menu_vi")),
              descriptionVi := OptionalText(Field(row, "description_vi")),
              keywordsVi := if keywordsVi != "" then Some(ParseKeywords(keywordsVi)) else None))
  }

  function ConvertRow(format: Format, row: Row): Option<HsCode>
  {
    match format
    case Basic => ConvertBasicRow(row)
    case Extended => ConvertExtendedRow(row)
    case Bilingual => ConvertBilingualRow(row)
  }

  // ---------------------------------------------------------------- the conversion loop

  /** `not any(row.values())` */
  predicate AllEmpty(row: Row)
  {
    forall k :: k in row ==> row[k] == ""
  }

  /** What one row contributes to the output of `convert`. */
  function Converted(format: Format, row: Row): seq<HsCode>
  {
    if AllEmpty(row) then []
    else match ConvertRow(format, row)
      case Some(h) => [h]
      case None => []
  }

  /** The records `convert` collects from `rows`. */
  function ConvertAll(format: Format, rows: seq<Row>): seq<HsCode>
  {
    FlatMap((row: Row) => Converted(format, row), rows)
  }

  /** The row-filtering loop of `convert`. */
  method Convert(format: Format, rows: seq<Row>) returns (hsCodes: seq<HsCode>)
    ensures hsCodes == ConvertAll(format, rows)
  {
    hsCodes := [];
    for i := 0 to |rows|
      invariant hsCodes == ConvertAll(format, rows[..i])
    {
      var row := rows[i];
      assert rows[..i + 1][..i] == rows[..i];
      assert ConvertAll(format, rows[..i + 1]) == ConvertAll(format, rows[..i]) + Converted(format, row);
      if AllEmpty(row) {
        continue;
      }
      var hsCode := ConvertRow(format, row);
      if hsCode.Some? {
        assert Converted(format, row) == [hsCode.value];
        hsCodes := hsCodes + [hsCode.value];
      } else {
        assert Converted(format, row) == [];
      }
    }
    assert rows[..|rows|] == rows;
  }

  /** The output keeps input order: converting two batches of rows concatenates their results. */
  lemma ConvertAllAppend(format: Format, a: seq<Row>, b: seq<Row>)
    ensures ConvertAll(format, a + b) == ConvertAll(format, a) + ConvertAll(format, b)
  {
    FlatMapAppend((row: Row) => Converted(format, row), a, b);
  }

  /** A row with no values is never converted, so skipping it only silences the warning. */
  lemma EmptyRowNeverConverts(format: Format, row: Row)
    requires AllEmpty(row)
    ensures ConvertRow(format, row) == None
  {
    assert Get(row, "code") == "";
    assert Field(row, "code") == "";
  }

  /** A converted row has a six-digit code and its required fields. */
  lemma ConvertedValid(format: Format, row: Row, h: HsCode)
    requires h in Converted(format, row)
    ensures IsSixDigitCode(h.code) && h.description != "" && h.chapter != "" && h.section != ""
  {
    assert ConvertRow(format, row) == Some(h);
  }

  /** Every collected record has a six-digit code and its required fields, and none is invented. */
  lemma ConvertAllValid(format: Format, rows: seq<Row>)
    ensures |ConvertAll(format, rows)| <= |rows|
    ensures forall h :: h in ConvertAll(format, rows) ==>
      IsSixDigitCode(h.code) && h.description != "" && h.chapter != "" && h.section != ""
  {
    var f := (row: Row) => Converted(format, row);
    FlatMapAtMostOne(f, rows);
    forall h | h in ConvertAll(format, rows)
      ensures IsSixDigitCode(h.code) && h.description != "" && h.chapter != "" && h.section != ""
    {
      FlatMapElements(f, rows, h);
      var k :| 0 <= k < |rows| && h in f(rows[k]);
      ConvertedValid(format, rows[k], h);
    }
  }
}
