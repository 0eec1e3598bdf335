/**
 * scripts/csv-to-bilingual-ai.py: the translation service that tries its cache, then the local
 * dictionary, then a paid translation provider, counting each outcome; the keyword extractor;
 * the row limit of the reader; and the converter that builds the bilingual rows.
 *
 * The provider's answer to a request is a parameter of the service (`api`), so the model
 * speaks about every possible behaviour of the remote service at once.
 */
module CsvToBilingualAi {
  import opened Common
  import opened PyStr
  import opened Seqs
  import opened DictLookup
  import Keywords
  import CsvToBilingual
  import CsvToJson

  /** The nine-entry `TRANSLATION_DICT` of this script, in its insertion order. */
  const AiTranslationDict: Dict := [
    ("Animals; live",
     "\U{0110}\U{1ED9}ng v\U{1EAD}t; s\U{1ED1}ng"),
    ("Horses, asses, mules and hinnies; live",
     "Ng\U{1EF1}a, l\U{1EEB}a, la v\U{00E0} c\U{00E1}i la; s\U{1ED1}ng"),
    ("Horses; live, pure-bred breeding animals",
     "Ng\U{1EF1}a; s\U{1ED1}ng, \U{0111}\U{1ED9}ng v\U{1EAD}t gi\U{1ED1}ng thu\U{1EA7}n ch\U{1EE7}ng"),
    ("Horses; live, other than pure-bred breeding animals",
     "Ng\U{1EF1}a; s\U{1ED1}ng, kh\U{00F4}ng ph\U{1EA3}i \U{0111}\U{1ED9}ng v\U{1EAD}t gi\U{1ED1}ng thu\U{1EA7}n ch\U{1EE7}ng"),
    ("Asses; live",
     "L\U{1EEB}a; s\U{1ED1}ng"),
    ("Mules and hinnies; live",
     "La v\U{00E0} c\U{00E1}i la; s\U{1ED1}ng"),
    ("Bovine animals; live",
     "\U{0110}\U{1ED9}ng v\U{1EAD}t thu\U{1ED9}c h\U{1ECD} ng\U{1EF1}a v\U{1EB1}n; s\U{1ED1}ng"),
    ("Cattle; live, pure-bred breeding animals",
     "Gia s\U{00FA}c; s\U{1ED1}ng, \U{0111}\U{1ED9}ng v\U{1EAD}t gi\U{1ED1}ng thu\U{1EA7}n ch\U{1EE7}ng"),
    ("Cattle; live, other than pure-bred breeding animals",
     "Gia s\U{00FA}c; s\U{1ED1}ng, kh\U{00F4}ng ph\U{1EA3}i \U{0111}\U{1ED9}ng v\U{1EAD}t gi\U{1ED1}ng thu\U{1EA7}n ch\U{1EE7}ng")
  ]

  // ---------------------------------------------------------------- the translation service

  /**
   * What a provider request comes to: the client library is not installed, the call raised,
   * or the completion text came back.
   */
  datatype ApiReply = Unavailable | Failed | Reply(text: string)

  /** `self.stats` of the translation service. */
  datatype Stats = Stats(cacheHits: nat, dictHits: nat, apiCalls: nat, apiErrors: nat, cacheMisses: nat)

  /** The answer of one `translate` call together with the cache and counters after it. */
  datatype Outcome = Outcome(translation: string, cache: map<string, string>, stats: Stats)

  predicate IsApiProvider(provider: string)
  {
    provider == "openai" || provider == "cohere"
  }

  /**
   * `_translate_with_openai` / `_translate_with_cohere`: a missing library returns `""` without
   * counting, every attempted call counts, a raising call also counts as an error, and the
   * completion text is stripped.
   */
  function ApiAnswer(reply: ApiReply, stats: Stats): (string, Stats)
  {
    match reply
    case Unavailable => ("", stats)
    case Failed => ("", stats.(apiCalls := stats.apiCalls + 1, apiErrors := stats.apiErrors + 1))
    case Reply(text) => (Strip(text), stats.(apiCalls := stats.apiCalls + 1))
  }

  /** One `translate(text)` call, from the cache and counters before it. */
  function TranslationStep(provider: string, dict: Dict, api: (string, string) -> ApiReply,
                           cache: map<string, string>, stats: Stats, text: string): (o: Outcome)
    // the empty text changes nothing
    ensures text == "" ==> o == Outcome("", cache, stats)
    // afterwards the text is cached with the answer given; nothing else in the cache changes
    ensures text != "" ==> text in o.cache && o.cache[text] == o.translation
    ensures forall t :: t in cache ==> t in o.cache && o.cache[t] == cache[t]
    ensures forall t :: t in o.cache ==> t in cache || t == text
    // a cache hit answers from the cache and counts only a cache hit
    ensures text != "" && text in cache ==>
      o.translation == cache[text] && o.stats == stats.(cacheHits := stats.cacheHits + 1)
    // a dictionary hit answers by the lookup rule and counts only a dictionary hit
    ensures text != "" && text !in cache && Lookup(dict, text) != "" ==>
      o.translation == Lookup(dict, text) && o.stats == stats.(dictHits := stats.dictHits + 1)
    // everything else is a cache miss; only a paid provider is asked
    ensures text != "" && text !in cache && Lookup(dict, text) == "" ==>
      o.stats.cacheMisses == stats.cacheMisses + 1
      && o.stats.cacheHits == stats.cacheHits && o.stats.dictHits == stats.dictHits
    ensures text != "" && text !in cache && Lookup(dict, text) == "" && !IsApiProvider(provider) ==>
      o.translation == "" && o.stats == stats.(cacheMisses := stats.cacheMisses + 1)
  {
    if text == "" then Outcome("", cache, stats)
    else if text in cache then Outcome(cache[text], cache, stats.(cacheHits := stats.cacheHits + 1))
    else if Lookup(dict, text) != "" then
      Outcome(Lookup(dict, text), cache[text := Lookup(dict, text)], stats.(dictHits := stats.dictHits + 1))
    else if IsApiProvider(provider) then
      Outcome(ApiAnswer(api(provider, text), stats).0, cache[text := ApiAnswer(api(provider, text), stats).0],
              ApiAnswer(api(provider, text), stats).1.(cacheMisses := stats.cacheMisses + 1))
    else Outcome("", cache[text := ""], stats.(cacheMisses := stats.cacheMisses + 1))
  }

  /** Translating the same text a second time is a cache hit with the same answer. */
  lemma SecondCallHitsCache(provider: string, dict: Dict, api: (string, string) -> ApiReply,
                            cache: map<string, string>, stats: Stats, text: string)
    requires text != ""
    ensures var first := TranslationStep(provider, dict, api, cache, stats, text);
      var second := TranslationStep(provider, dict, api, first.cache, first.stats, text);
      second.translation == first.translation && second.cache == first.cache
      && second.stats == first.stats.(cacheHits := first.stats.cacheHits + 1)
  {
  }

  /** The state of the service after translating `texts` one after the other. */
  datatype Run = Run(translations: seq<string>, cache: map<string, string>, stats: Stats)

  function TranslateAll(provider: string, dict: Dict, api: (string, string) -> ApiReply,
                        cache: map<string, string>, stats: Stats, texts: seq<string>): (r: Run)
    ensures |r.translations| == |texts|
  {
    if texts == [] then Run([], cache, stats)
    else
      var p := TranslateAll(provider, dict, api, cache, stats, texts[..|texts| - 1]);
      var o := TranslationStep(provider, dict, api, p.cache, p.stats, texts[|texts| - 1]);
      Run(p.translations + [o.translation], o.cache, o.stats)
  }

  /** Translating one more text is one more step from where the run left off. */
  lemma TranslateAllSnoc(provider: string, dict: Dict, api: (string, string) -> ApiReply,
                         cache: map<string, string>, stats: Stats, texts: seq<string>, text: string)
    ensures var p := TranslateAll(provider, dict, api, cache, stats, texts);
      var o := TranslationStep(provider, dict, api, p.cache, p.stats, text);
      TranslateAll(provider, dict, api, cache, stats, texts + [text])
        == Run(p.translations + [o.translation], o.cache, o.stats)
  {
    assert (texts + [text])[..|texts|] == texts;
  }

  /**
   * Every non-empty text ends up cached with the answer it got, the empty text gets `""`, and so
   * equal texts always get equal answers, whatever the provider answers.
   */
  lemma {:induction false} TranslateAllConsistent(provider: string, dict: Dict,
      api: (string, string) -> ApiReply, cache: map<string, string>, stats: Stats, texts: seq<string>)
    ensures var r := TranslateAll(provider, dict, api, cache, stats, texts);
      && (forall i :: 0 <= i < |texts| && texts[i] != "" ==>
            texts[i] in r.cache && r.cache[texts[i]] == r.translations[i])
      && (forall i :: 0 <= i < |texts| && texts[i] == "" ==> r.translations[i] == "")
      && (forall i, j :: 0 <= i < |texts| && 0 <= j < |texts| && texts[i] == texts[j] ==>
            r.translations[i] == r.translations[j])
  {
    var r := TranslateAll(provider, dict, api, cache, stats, texts);
    if texts != [] {
      var n := |texts| - 1;
      TranslateAllConsistent(provider, dict, api, cache, stats, texts[..n]);
      var p := TranslateAll(provider, dict, api, cache, stats, texts[..n]);
      assert forall i :: 0 <= i < n ==> texts[i] == texts[..n][i] && r.translations[i] == p.translations[i];
      forall i | 0 <= i < |texts| && texts[i] != ""
        ensures texts[i] in r.cache && r.cache[texts[i]] == r.translations[i]
      {
        if i < n {
          assert texts[..n][i] in p.cache;
        }
      }
    }
  }

  /** How many of the texts are non-empty. */
  function CountNonEmpty(texts: seq<string>): (n: nat)
    ensures n <= |texts|
  {
    if texts == [] then 0
    else CountNonEmpty(texts[..|texts| - 1]) + (if texts[|texts| - 1] != "" then 1 else 0)
  }

  function Classified(s: Stats): nat
  {
    s.cacheHits + s.dictHits + s.cacheMisses
  }

  /** Each non-empty text is counted exactly once, as a cache hit, a dictionary hit or a miss. */
  lemma {:induction false} TranslateAllCounts(provider: string, dict: Dict,
      api: (string, string) -> ApiReply, cache: map<string, string>, stats: Stats, texts: seq<string>)
    ensures Classified(TranslateAll(provider, dict, api, cache, stats, texts).stats)
         == Classified(stats) + CountNonEmpty(texts)
  {
    if texts != [] {
      TranslateAllCounts(provider, dict, api, cache, stats, texts[..|texts| - 1]);
    }
  }

  /** One step of the dictionary provider keeps the cache within the lookup rule. */
  lemma DictStepIsLookup(provider: string, dict: Dict, api: (string, string) -> ApiReply,
                         cache: map<string, string>, stats: Stats, text: string)
    requires !IsApiProvider(provider)
    requires forall t :: t in cache ==> cache[t] == Lookup(dict, t)
    ensures var o := TranslationStep(provider, dict, api, cache, stats, text);
      && (forall t :: t in o.cache ==> o.cache[t] == Lookup(dict, t))
      && (text != "" ==> o.translation == Lookup(dict, text))
  {
    var o := TranslationStep(provider, dict, api, cache, stats, text);
    forall t | t in o.cache ensures o.cache[t] == Lookup(dict, t) {
      if t in cache {
        assert o.cache[t] == cache[t];
      } else {
        assert t == text && o.cache[text] == o.translation;
      }
    }
  }

  /**
   * With the plain dictionary provider and a cache that holds only dictionary answers (such as
   * an empty one), every non-empty text is translated exactly as the dictionary lookup rule says.
   */
  lemma {:induction false} DictProviderIsLookup(provider: string, dict: Dict,
      api: (string, string) -> ApiReply, cache: map<string, string>, stats: Stats, texts: seq<string>)
    requires !IsApiProvider(provider)
    requires forall t :: t in cache ==> cache[t] == Lookup(dict, t)
    ensures var r := TranslateAll(provider, dict, api, cache, stats, texts);
      && (forall t :: t in r.cache ==> r.cache[t] == Lookup(dict, t))
      && (forall i :: 0 <= i < |texts| && texts[i] != "" ==> r.translations[i] == Lookup(dict, texts[i]))
  {
    var r := TranslateAll(provider, dict, api, cache, stats, texts);
    if texts != [] {
      var n := |texts| - 1;
      DictProviderIsLookup(provider, dict, api, cache, stats, texts[..n]);
      var p := TranslateAll(provider, dict, api, cache, stats, texts[..n]);
      var o := TranslationStep(provider, dict, api, p.cache, p.stats, texts[n]);
      DictStepIsLookup(provider, dict, api, p.cache, p.stats, texts[n]);
      TranslateAllSnoc(provider, dict, api, cache, stats, texts[..n], texts[n]);
      assert texts[..n] + [texts[n]] == texts;
      assert r == Run(p.translations + [o.translation], o.cache, o.stats);
      forall i | 0 <= i < |texts| && texts[i] != ""
        ensures r.translations[i] == Lookup(dict, texts[i])
      {
        if i < n {
          assert texts[..n][i] == texts[i];
        }
      }
    }
  }

  /** `print_stats`' hit rate: the share of answers given without the provider, when any count. */
  function HitRate(s: Stats): (r: Option<nat>)
    ensures r.Some? <==> s.cacheHits + s.dictHits + s.apiCalls + s.apiErrors + s.cacheMisses > 0
    ensures r.Some? ==> r.value <= 100
    ensures r.Some? ==> r.value * (s.cacheHits + s.dictHits + s.apiCalls + s.apiErrors + s.cacheMisses)
                        <= (s.cacheHits + s.dictHits) * 100
  {
    var total := s.cacheHits + s.dictHits + s.apiCalls + s.apiErrors + s.cacheMisses;
    if total > 0 then Some(Percent(s.cacheHits + s.dictHits, total)) else None
  }

  /** `TranslationService` with its provider, dictionary, cache and counters. */
  class TranslationService {
    const provider: string
    const localDict: Dict
    /** The provider's reply to a request for a text. */
    const api: (string, string) -> ApiReply
    var cache: map<string, string>
    var stats: Stats

    /** `loaded` is what `_load_cache` read from the cache file (`{}` when there is none). */
    constructor(provider: string, api: (string, string) -> ApiReply, loaded: map<string, string>)
      ensures this.provider == provider && this.api == api && localDict == AiTranslationDict
      ensures cache == loaded && stats == Stats(0, 0, 0, 0, 0)
    {
      this.provider := provider;
      this.api := api;
      localDict := AiTranslationDict;
      cache := loaded;
      stats := Stats(0, 0, 0, 0, 0);
    }

    /** `_translate_from_dict`: the exact entry, else the first key occurring in the text, else "". */
    method TranslateFromDict(text: string) returns (r: string)
      ensures r == Lookup(localDict, text)
    {
      var exact := ExactIndex(localDict, text);
      if exact.Some? {
        return localDict[exact.value].1;
      }
      for i := 0 to |localDict|
        invariant forall j :: 0 <= j < i ==> !Matches(localDict[j].0, text)
      {
        var (key, value) := localDict[i];
        if Matches(key, text) {
          assert PartialIndex(localDict, text) == Some(i) by {
            var k := PartialIndex(localDict, text);
            assert !(k.value < i) && !(i < k.value);
          }
          return value;
        }
      }
      return "";
    }

    /** The provider branch of `translate`. */
    method CallProvider(text: string) returns (r: string)
      modifies this
      ensures (r, stats) == ApiAnswer(api(provider, text), old(stats))
      ensures cache == old(cache)
    {
      match api(provider, text)
      case Unavailable =>
        r := "";
      case Failed =>
        stats := stats.(apiCalls := stats.apiCalls + 1);
        stats := stats.(apiErrors := stats.apiErrors + 1);
        r := "";
      case Reply(completion) =>
        stats := stats.(apiCalls := stats.apiCalls + 1);
        r := Strip(completion);
    }

    /** `translate`: cache, then dictionary, then provider; the answer is cached. */
    method Translate(text: string) returns (r: string)
      modifies this
      ensures Outcome(r, cache, stats) == TranslationStep(provider, localDict, api, old(cache), old(stats), text)
    {
      if text == "" {
        return "";
      }
      if text in cache {
        stats := stats.(cacheHits := stats.cacheHits + 1);
        return cache[text];
      }
      r := TranslateFromDict(text);
      if r != "" {
        stats := stats.(dictHits := stats.dictHits + 1);
        cache := cache[text := r];
        return;
      }
      if IsApiProvider(provider) {
        r := CallProvider(text);
      } else {
        r := "";
      }
      stats := stats.(cacheMisses := stats.cacheMisses + 1);
      cache := cache[text := r];
    }
  }

  // ---------------------------------------------------------------- keywords

  /** This script's English stop list also drops "animal". */
  const StopWordsEnAi: set<string> := CsvToBilingual.StopWordsEn + {"animal"}

  function AiStopWords(language: string): set<string>
  {
    if language == "en" then StopWordsEnAi else CsvToBilingual.StopWordsVi
  }

  /**
   * `_extract_keywords`: `""` for an empty description, otherwise the filtered keyword list of
   * the shared extractor joined by ", ", which `parse_keywords` reads back.
   */
  function ExtractKeywords(description: string, language: string): (r: string)
    ensures description == "" ==> r == ""
    ensures CsvToJson.ParseKeywords(r) == CsvToBilingual.KeywordList(description, AiStopWords(language))
  {
    CsvToBilingual.KeywordsReadBack(description, AiStopWords(language));
    if description == "" then
      assert CsvToBilingual.KeywordList(description, AiStopWords(language)) == [] by {
        assert Lower(description) == [];
      }
      ""
    else Join(CsvToBilingual.KeywordList(description, AiStopWords(language)), ", ")
  }

  // ---------------------------------------------------------------- rows

  /**
   * `_read_input`'s row limit: a missing or zero limit keeps every row, and otherwise reading
   * stops at the first index that reaches the limit.
   */
  method ReadInput(records: seq<Row>, limit: Option<int>) returns (rows: seq<Row>)
    ensures |rows| <= |records| && rows == records[..|rows|]
    ensures limit.None? || limit.value == 0 ==> rows == records
    ensures limit.Some? && limit.value < 0 ==> rows == []
    ensures limit.Some? && limit.value > 0 ==> |rows| == Min(limit.value, |records|)
  {
    rows := [];
    for i := 0 to |records|
      invariant rows == records[..i]
      invariant limit.Some? && limit.value < 0 ==> i == 0
      invariant limit.Some? && limit.value > 0 ==> i <= limit.value
    {
      if limit.Some? && limit.value != 0 && i >= limit.value {
        return;
      }
      rows := rows + [records[i]];
    }
  }

  /** The bilingual row of one input row, with this script's keyword extractor. */
  function AiRowOf(row: Row, descriptionVi: string): (r: CsvToBilingual.BilingualRow)
    ensures r.code == Get(row, "hscode") && r.menu == Get(row, "section")
    ensures r.chapter == Get(row, "parent") && r.level == Get(row, "level")
    ensures r.description == Strip(Get(row, "description")) && r.descriptionVi == descriptionVi
    ensures r.keywords == ExtractKeywords(r.description, "en")
    ensures descriptionVi == "" ==> r.keywordsVi == ""
    ensures descriptionVi != "" ==> r.keywordsVi == ExtractKeywords(descriptionVi, "vi")
  {
    CsvToBilingual.BilingualRow(
      Get(row, "hscode"), Get(row, "section"), Strip(Get(row, "description")), descriptionVi,
      ExtractKeywords(Strip(Get(row, "description")), "en"),
      if descriptionVi != "" then ExtractKeywords(descriptionVi, "vi") else "",
      Get(row, "parent"), Get(row, "level"))
  }

  /**
   * The English keyword column reads back as the description's first five filtered words, with
   * `animal` a stop word as well. The Vietnamese column is the one scripts/csv-to-bilingual.py
   * writes, and so is the English column whenever `animal` is not among the description's words.
   */
  lemma AiRowAgrees(row: Row, descriptionVi: string)
    ensures var r := AiRowOf(row, descriptionVi);
      var b := CsvToBilingual.BilingualRowOf(row, descriptionVi);
      && CsvToJson.ParseKeywords(r.keywords) == CsvToBilingual.KeywordList(r.description, StopWordsEnAi)
      && r.keywordsVi == b.keywordsVi
      && ("animal" !in CsvToBilingual.KeywordWords(r.description) ==> r.keywords == b.keywords)
  {
    var description := Strip(Get(row, "description"));
    var ws := CsvToBilingual.KeywordWords(description);
    if "animal" !in ws {
      forall k | 0 <= k < |ws|
        ensures ws[k] in StopWordsEnAi <==> ws[k] in CsvToBilingual.StopWordsEn
      {
        assert ws[k] != "animal";
      }
      Keywords.FilteredSameStops(ws, StopWordsEnAi, CsvToBilingual.StopWordsEn);
      if description == "" {
        assert Lower(description) == [];
      }
    }
  }

  /** The English descriptions `_process_rows` translates, one per row. */
  function Descriptions(rows: seq<Row>): (r: seq<string>)
    ensures |r| == |rows| && forall k :: 0 <= k < |rows| ==> r[k] == Strip(Get(rows[k], "description"))
  {
    seq(|rows|, k requires 0 <= k < |rows| => Strip(Get(rows[k], "description")))
  }

  lemma DescriptionsSnoc(rows: seq<Row>, i: nat)
    requires i < |rows|
    ensures Descriptions(rows[..i + 1]) == Descriptions(rows[..i]) + [Strip(Get(rows[i], "description"))]
  {
    var a, b := Descriptions(rows[..i + 1]), Descriptions(rows[..i]) + [Strip(Get(rows[i], "description"))];
    assert forall k :: 0 <= k < i + 1 ==> a[k] == b[k];
  }

  /** `out[k]` is the bilingual row of `rows[k]` translated as `translations[k]`, for every `k`. */
  predicate RowsBuilt(out: seq<CsvToBilingual.BilingualRow>, rows: seq<Row>, translations: seq<string>)
  {
    |out| == |translations| <= |rows|
    && forall k :: 0 <= k < |out| ==> out[k] == AiRowOf(rows[k], translations[k])
  }

  lemma RowsBuiltSnoc(out: seq<CsvToBilingual.BilingualRow>, rows: seq<Row>, translations: seq<string>,
                      row: CsvToBilingual.BilingualRow, translation: string)
    requires RowsBuilt(out, rows, translations) && |out| < |rows|
    requires row == AiRowOf(rows[|out|], translation)
    ensures RowsBuilt(out + [row], rows, translations + [translation])
  {
    var out', tr' := out + [row], translations + [translation];
    forall k | 0 <= k < |out'| ensures out'[k] == AiRowOf(rows[k], tr'[k]) {
      if k < |out| {
        assert out'[k] == out[k] && tr'[k] == translations[k];
      }
    }
  }

  /** `EnhancedCSVBilingualConverter`: the translation service and `total`/`translated`/`missing`. */
  class EnhancedConverter {
    const translator: TranslationService
    var total: nat
    var translated: nat
    var missing: nat

    predicate Valid()
      reads this
    {
      total == translated + missing
    }

    constructor(provider: string, api: (string, string) -> ApiReply, loaded: map<string, string>)
      ensures fresh(translator) && translator.provider == provider && translator.api == api
      ensures translator.localDict == AiTranslationDict
      ensures translator.cache == loaded && translator.stats == Stats(0, 0, 0, 0, 0)
      ensures total == 0 && translated == 0 && missing == 0
      ensures Valid()
    {
      translator := new TranslationService(provider, api, loaded);
      total, translated, missing := 0, 0, 0;
    }

    /** The body of `_process_rows` for one row. */
    method ProcessRow(row: Row) returns (r: CsvToBilingual.BilingualRow)
      requires Valid()
      modifies this, translator
      ensures Valid()
      ensures var o := TranslationStep(translator.provider, translator.localDict, translator.api,
                                        old(translator.cache), old(translator.stats),
                                        Strip(Get(row, "description")));
        && r == AiRowOf(row, o.translation)
        && translator.cache == o.cache && translator.stats == o.stats
      ensures total == old(total) + 1
      ensures translated == old(translated) + (if r.descriptionVi != "" then 1 else 0)
      ensures missing == old(missing) + (if r.descriptionVi != "" then 0 else 1)
    {
      total := total + 1;
      var descriptionEn := Strip(Get(row, "description"));
      var descriptionVi := translator.Translate(descriptionEn);
      if descriptionVi != "" {
        translated := translated + 1;
      } else {
        missing := missing + 1;
      }
      r := AiRowOf(row, descriptionVi);
    }

    /**
     * `_process_rows`: one bilingual row per input row, translated in order by the service, and
     * the counters.
     */
    method ProcessRows(rows: seq<Row>) returns (processed: seq<CsvToBilingual.BilingualRow>)
      requires Valid()
      modifies this, translator
      ensures Valid()
      ensures var run := TranslateAll(translator.provider, translator.localDict, translator.api,
                                      old(translator.cache), old(translator.stats), Descriptions(rows));
        && |processed| == |rows|
        && (forall k :: 0 <= k < |rows| ==> processed[k] == AiRowOf(rows[k], run.translations[k]))
        && translator.cache == run.cache && translator.stats == run.stats
      ensures total == old(total) + |rows|
      ensures translated == old(translated) + CsvToBilingual.CountTranslated(processed)
      ensures missing == old(missing) + (|rows| - CsvToBilingual.CountTranslated(processed))
    {
      processed := [];
      ghost var run := Run([], translator.cache, translator.stats);
      ghost var cache0, stats0 := translator.cache, translator.stats;
      for i := 0 to |rows|
        invariant Valid()
        invariant |processed| == i
        invariant run == TranslateAll(translator.provider, translator.localDict, translator.api,
                                      cache0, stats0, Descriptions(rows[..i]))
        invariant RowsBuilt(processed, rows, run.translations)
        invariant translator.cache == run.cache && translator.stats == run.stats
        invariant total == old(total) + i
        invariant translated == old(translated) + CsvToBilingual.CountTranslated(processed)
        invariant missing == old(missing) + (i - CsvToBilingual.CountTranslated(processed))
      {
        ghost var texts, text := Descriptions(rows[..i]), Strip(Get(rows[i], "description"));
        DescriptionsSnoc(rows, i);
        TranslateAllSnoc(translator.provider, translator.localDict, translator.api, cache0, stats0, texts, text);
        var bilingualRow := ProcessRow(rows[i]);
        RowsBuiltSnoc(processed, rows, run.translations, bilingualRow, bilingualRow.descriptionVi);
        run := Run(run.translations + [bilingualRow.descriptionVi], translator.cache, translator.stats);
        assert (processed + [bilingualRow])[..i] == processed;
        processed := processed + [bilingualRow];
      }
      assert rows[..|rows|] == rows;
    }
  }
}
