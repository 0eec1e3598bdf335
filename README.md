# HS code data pipeline: a verified model

This project models the offline data tools of a Harmonized System (HS) product code search
application. Six Python scripts turn customs spreadsheets into the JSON and CSV files the
application loads:

- `scripts/csv-to-json.py` converts a CSV of HS codes in one of three formats (basic,
  extended, bilingual) into HS code records, generating menus and keywords where the CSV has
  none.
- `scripts/excel_to_hs_code.py` turns spreadsheet rows into code entries with their
  hierarchy (chapter, heading, subheading), their parent codes, and the descriptions of every
  enclosing level joined with `" | "`. It also collects the sections and chapters.
- `scripts/csv-to-bilingual.py` adds a Vietnamese description and keywords to every row. It
  uses a fixed English to Vietnamese dictionary, consulted exact match first, then first
  partial match, then empty, and caches every answer.
- `scripts/csv-to-bilingual-ai.py` does the same with a cache, a small local dictionary
  and an OpenAI or Cohere fallback, and counts cache hits, dictionary hits, API calls and
  errors.
- `scripts/analyze-dictionary-coverage.py` classifies the descriptions of a CSV as exact,
  partial or missing against the dictionary. It reports percentages and the five largest
  categories of missing descriptions.
- `scripts/generate-embeddings.py` builds one embedding text per HS code, sends the texts in
  batches to OpenAI, Cohere or a Hugging Face model, keeps one record per returned vector, and
  chooses the output path and metadata.

One Dafny module models each script: `CsvToJson`, `ExcelToHsCode`, `CsvToBilingual`,
`CsvToBilingualAi`, `DictionaryCoverage` and `GenerateEmbeddings`. Five shared modules
support them:

- `Common`: `Option`, `Result`, CSV rows as `map<string, string>`, and Python's `x*100//total`.
- `PyStr`: the Python string operations the scripts use: `strip`, `split()`, `split(sep)`,
  `join`, `lower`, `startswith`, `endswith` and `in`. `strip` and `split()` use Python's
  whitespace set; `lower` and `isdigit` are the ASCII-only versions listed under "Left out".
- `Seqs`: slicing, and the order-keeping de-duplication idioms.
- `DictLookup`: the dictionary lookup rule shared by three scripts.
- `Keywords`: the word filter `[w for w in words if len(w) > 2 and w not in stop]` that all
  three keyword extractors apply.

Dictionaries in insertion order are association lists.

The level cache of `ExcelToHsCode` is an association list in ascending level order. As in
the script, a code row whose level is empty or unparsable is stored under level -1. A later
row deletes only the levels above its own, so that entry stays and comes first in every later
full description. The properties of later rows are therefore stated for rows at a level L ≥ 0.

The model follows each script's form:

- Operations that mutate an object are methods of a class with those fields. These are the
  two translation services, the two converters with their counters, and the coverage
  analyzer.
- Loops are methods with loop invariants. Each is proved equal to a specification function,
  and the properties are proved as lemmas about that function.
- Pure helpers are functions.

Network calls, library availability and file contents become parameters:

- A provider's translation reply is a function `(provider, text) -> ApiReply`.
- An embedding provider's reply for each batch is a `Reply`: vectors, rate limited, or
  failed.
- The loaded translation cache is a constructor argument.

## Model

| member | source | states |
|---|---|---|
| `Common.Percent` | scripts/analyze-dictionary-coverage.py:115-124 | `part*100//total if total else 0`: 0 for an empty total, otherwise the largest r with r·total ≤ part·100. It is at most 100 when the part does not exceed the total. |
| `Common.PercentsOfPartition` | scripts/csv-to-bilingual.py:344-354 | The translated and missing percentages of a total they partition never add up to more than 100. |
| `DictLookup.ExactIndex` | scripts/csv-to-bilingual.py:187-190 | Finds an entry whose key is the text. It finds none exactly when the text is not a key. |
| `DictLookup.PartialIndex` | scripts/csv-to-bilingual.py:193-196 | The first entry, in insertion order, whose lower-cased key occurs in the lower-cased text. It returns none exactly when no key occurs. |
| `DictLookup.LookupExact` | scripts/csv-to-bilingual.py:187-190 | With distinct keys, a text that is a key translates to that key's value. |
| `DictLookup.LookupPartial` | scripts/csv-to-bilingual.py:193-196 | A text that is not a key translates to the value of the first entry whose key occurs in it. |
| `DictLookup.LookupMiss` | scripts/csv-to-bilingual.py:199-200 | A text that neither is a key nor contains one translates to the empty string. |
| `CsvToJson.ParseFormat` | scripts/csv-to-json.py:38-52 | A format is accepted exactly when its lower-cased name is basic, extended or bilingual, and that name is the chosen format. Every other name is an error. |
| `CsvToJson.ParseKeywords` | scripts/csv-to-json.py:54-68 | A blank string gives no keywords. Every keyword is non-empty, stripped and free of commas. |
| `CsvToJson.StrippedPiecesNoComma` | scripts/csv-to-json.py:68 | Stripped non-empty pieces of comma-free parts are valid keywords. |
| `CsvToJson.StrippedPiecesOfJoin` | scripts/csv-to-json.py:68 | Splitting valid keywords joined with `", "` at the commas and stripping the pieces returns exactly those keywords. |
| `CsvToJson.ParseKeywordsOfJoin` | scripts/csv-to-json.py:54-68 | Round trip: parsing keywords joined with `", "` gives back the same keywords. |
| `CsvToJson.DropTrailingPunct` | scripts/csv-to-json.py:88 | Removing one trailing `,` or `.` leaves a prefix of the text. |
| `CsvToJson.ExtractMenu` | scripts/csv-to-json.py:70-91 | An empty description gives an empty menu. A menu is at most 100 characters. When the first eight words, less one trailing `,` or `.`, exceed 100 characters, the menu is their first 97 characters followed by `...`, 100 in all. |
| `CsvToJson.MenuIsFirstEightWords` | scripts/csv-to-json.py:84-91 | A menu that fits is made of the description's first eight words, the last of them without one trailing `,` or `.` (and gone if nothing else was left of it). |
| `Keywords.Filtered` | scripts/csv-to-json.py:253 | Every kept word is a word of the input, longer than two characters and not a stop word. |
| `Keywords.FilteredComplete` | scripts/csv-to-bilingual.py:222 | No word longer than two characters that is not a stop word is left out. |
| `Keywords.FilteredAppend` | scripts/csv-to-bilingual-ai.py:384 | Filtering two stretches of words filters each, in order. |
| `Keywords.FilteredOne` | scripts/csv-to-bilingual.py:222 | A single word is kept exactly when it is longer than two characters and not a stop word. With `FilteredAppend`, this fixes the result for every input. |
| `Keywords.FilteredOrder` | scripts/csv-to-json.py:253 | Of two kept words, the one kept first occurs first among the input words. |
| `Keywords.FilteredSameStops` | scripts/csv-to-bilingual-ai.py:380-384 | Two stop-word sets that agree on every input word give the same keywords. |
| `Keywords.FilteredPrefix` | scripts/csv-to-bilingual.py:222-224 | The first `m` kept words are all the kept words of a leading stretch of the input. That stretch is the whole input unless `m` words were found. |
| `Keywords.FirstDistinctFiltered` | scripts/csv-to-json.py:252-263 | The first `n` distinct kept words: no duplicates, in order of first occurrence among the input words. Any kept word left out first occurs after all of them, and none is left out when fewer than `n` are found. |
| `CsvToJson.GeneratedKeywordsProperties` | scripts/csv-to-json.py:225-263 | Generated keywords are the first ten distinct words of the lower-cased description, split after `,;:()-` are turned into spaces, that are longer than two characters and not common words. They have no duplicates and follow the order of first occurrence. Any such word left out occurs first after all of them, and with fewer than ten every such word is present. |
| `CsvToJson.GenerateKeywords` | scripts/csv-to-json.py:225-263 | The seen-set loop computes exactly the generated keyword list. |
| `CsvToJson.ConvertBasicRow` | scripts/csv-to-json.py:93-129 | For a row that has every cell of its header, the row converts exactly when code, description, chapter and section are all non-empty after stripping and the code is six ASCII digits. The record then carries those fields, the extracted menu and the generated keywords, and no Vietnamese fields. |
| `CsvToJson.KeywordCellReadBack` | scripts/csv-to-json.py:165 | A keyword cell holding valid keywords joined with `", "` gives back exactly those keywords, and nothing is generated. |
| `CsvToJson.KeywordsPresent` | scripts/csv-to-json.py:165 | A record never lacks keywords when its description has a word longer than two characters that is not a common word, whatever its keyword cell holds. |
| `CsvToJson.ConvertExtendedRow` | scripts/csv-to-json.py:131-169 | For a row that has every cell of its header, the row converts exactly when the five required fields are non-empty and the code is six digits. The record carries the row's own menu and the parsed keywords, or generated ones when none parse. |
| `CsvToJson.ConvertBilingualRow` | scripts/csv-to-json.py:171-223 | For a row that has every cell of its header: the same acceptance and English fields as the extended format. Each Vietnamese field is present exactly when its column is non-empty, and Vietnamese keywords are parsed. |
| `CsvToJson.Convert` | scripts/csv-to-json.py:289-305 | The row loop produces exactly the converted rows, in order, skipping rows with no value. |
| `CsvToJson.ConvertAllAppend` | scripts/csv-to-json.py:289-305 | Conversion distributes over concatenated inputs. |
| `CsvToJson.EmptyRowNeverConverts` | scripts/csv-to-json.py:290-292 | A row whose every value is empty yields no record in any format. |
| `CsvToJson.ConvertedValid` | scripts/csv-to-json.py:93-223 | Every record of any format has a six-digit code and a non-empty description, chapter and section. |
| `CsvToJson.ConvertAllValid` | scripts/csv-to-json.py:265-315 | The output has at most one record per input row, and every record is valid. |
| `ExcelToHsCode.SearchSection` | scripts/excel_to_hs_code.py:41 | A match found by `Chương\s+(\d+)` has only digits, and there is none when the text lacks `Chương`. |
| `ExcelToHsCode.SearchSectionNone` | scripts/excel_to_hs_code.py:41-42 | `re.search` finds nothing exactly when the pattern matches at no position of the text, including a text that contains `Chương` without whitespace and digits after it. |
| `ExcelToHsCode.SearchSectionSome` | scripts/excel_to_hs_code.py:41-42 | What `re.search` finds is the group of the leftmost match: the pattern matches there and at no earlier position. |
| `ExcelToHsCode.ExtractSectionNumber` | scripts/excel_to_hs_code.py:37-42 | An empty description gives none. A section number is all digits and comes from a description that contains `Chương`. |
| `ExcelToHsCode.ExtractSectionNumberLeftmost` | scripts/excel_to_hs_code.py:37-42 | A description has a section number exactly when the pattern matches somewhere in it, and the number is the group of the leftmost match. |
| `ExcelToHsCode.SectionOfLabel` | scripts/excel_to_hs_code.py:41-42 | Any text in which the pattern matches nowhere, then `Chương`, whitespace, a digit run and a non-digit, gives exactly that digit run. |
| `ExcelToHsCode.ExtractChapterNumber` | scripts/excel_to_hs_code.py:44-52 | There is a chapter exactly when the stripped code has at least two characters and the first two are digits. The chapter is those two characters. |
| `ExcelToHsCode.PadZeros` | scripts/excel_to_hs_code.py:94 | `ljust(6, '0')`: six characters, the input followed by zeros. |
| `ExcelToHsCode.FullCode` | scripts/excel_to_hs_code.py:89-94 | Six characters: the first six of a long code, otherwise the code padded with zeros (four digits get `00`). |
| `ExcelToHsCode.FullCodeKeepsCode` | scripts/excel_to_hs_code.py:89-94 | The full code and the code are prefixes of one another, and only zeros are added. |
| `ExcelToHsCode.BuildHsHierarchy` | scripts/excel_to_hs_code.py:79-101 | No hierarchy exactly when the stripped code is shorter than two characters. Otherwise the chapter (2), heading (4) and subheading (6) are nested prefixes of the full code, and the subheading is the full code. |
| `ExcelToHsCode.RemoveZeroPairsDigits` | scripts/excel_to_hs_code.py:62 | Removing `00` pairs keeps a string all-digits exactly when it was. It empties an all-digit string exactly when that string is an even run of zeros. |
| `ExcelToHsCode.ExtractParentCodes` | scripts/excel_to_hs_code.py:54-77 | Parent codes exist exactly when the guard accepts the stripped code. Their subheading is the full code, and chapter and heading are its 2- and 4-character prefixes. |
| `ExcelToHsCode.ParentCodeGuard` | scripts/excel_to_hs_code.py:61-63 | The guard accepts exactly when the code has at least four characters and its first six are digits that are not an even run of zeros. |
| `ExcelToHsCode.ParentCodesAgree` | scripts/excel_to_hs_code.py:54-101 | When parent codes exist, they agree with the hierarchy and with the extracted chapter number. |
| `ExcelToHsCode.ExtractSectionsAndChapters` | scripts/excel_to_hs_code.py:103-140 | The row loop computes exactly the section and chapter dictionaries. |
| `ExcelToHsCode.SectionsFirstRowWins` | scripts/excel_to_hs_code.py:103-140 | Section and chapter keys are distinct. Each key's value comes from the first row that produced the key. |
| `ExcelToHsCode.Keep` | scripts/excel_to_hs_code.py:181-183 | Keeps exactly the cache entries whose level passes the test, and keeps the ascending level order. |
| `ExcelToHsCode.DropAbove` | scripts/excel_to_hs_code.py:180-183 | Deleting the levels above the current one leaves exactly the entries at or below it, still in ascending order. |
| `ExcelToHsCode.Put` | scripts/excel_to_hs_code.py:186-189 | Storing a level replaces that level's entry and keeps every other entry. The cache stays in ascending level order. |
| `ExcelToHsCode.ParseLevel` | scripts/excel_to_hs_code.py:168-172 | `int(level)`, and -1 for an empty or unparsable level. A digit string parses to a non-negative level. |
| `ExcelToHsCode.TransformToHsCode` | scripts/excel_to_hs_code.py:142-231 | The row loop with its level cache computes exactly the specification of the transformation. |
| `ExcelToHsCode.OneEntryPerCodeRow` | scripts/excel_to_hs_code.py:175-216 | There is one entry per row whose code starts with a digit, in row order, carrying that row's code. |
| `ExcelToHsCode.CacheAfterLevelRow` | scripts/excel_to_hs_code.py:177-229 | After a stored row at a level L ≥ 0, the cache holds that row's descriptions at its level and nothing deeper. |
| `ExcelToHsCode.CacheUnchangedByOtherRows` | scripts/excel_to_hs_code.py:217-229 | A row without a code that lacks a level or one of its descriptions changes neither the cache nor the output. |
| `ExcelToHsCode.FullDescriptionEndsWithOwn` | scripts/excel_to_hs_code.py:190-213 | For a code row at a level L ≥ 0, the joined Vietnamese and English descriptions end with the row's own non-empty descriptions. |
| `CsvToBilingual.TranslationService.TranslateDescription` | scripts/csv-to-bilingual.py:173-200 | The answer is the dictionary lookup: exact entry, else first partial match, else empty. The answer is cached, and the cache never holds anything else. |
| `CsvToBilingual.TranslationService.constructor` | scripts/csv-to-bilingual.py:168-171 | The service starts with the fixed dictionary and an empty cache. |
| `CsvToBilingual.KeywordListProperties` | scripts/csv-to-bilingual.py:202-224 | At most five keywords, each a word of the lower-cased description split after `,;()` are turned into spaces, longer than two characters, not a stop word, and free of spaces and `,;()`. They are every passing word of a leading stretch of those words, in order, and that stretch is all the words when fewer than five pass. |
| `CsvToBilingual.KeywordsReadBack` | scripts/csv-to-bilingual.py:224 | The `", "`-joined keyword string reads back, under the JSON converter's keyword parser, as the same keyword list. |
| `CsvToBilingual.BilingualRowReadBack` | scripts/csv-to-bilingual.py:306-324 | The keyword columns of an output row read back, under the JSON converter's keyword parser, as the keywords of its stripped description and of its translation. A row without a translation has no Vietnamese keywords. |
| `CsvToBilingual.BilingualRowwise` | scripts/csv-to-bilingual.py:280-326 | Row k of the output is built from input row k and the dictionary's answer for its stripped description. |
| `CsvToBilingual.StatsPercents` | scripts/csv-to-bilingual.py:344-354 | The two printed percentages add up to at most 100, and both are 0 for no rows. |
| `CsvToBilingual.BilingualConverter.constructor` | scripts/csv-to-bilingual.py:230-246 | A fresh translator and zero counters. |
| `CsvToBilingual.BilingualConverter.ProcessRow` | scripts/csv-to-bilingual.py:296-324 | One row: the total grows by one, and either translated or missing grows, depending on the answer. The row is built from the lookup answer. |
| `CsvToBilingual.BilingualConverter.ProcessRows` | scripts/csv-to-bilingual.py:280-326 | For rows that have a description cell: the output is the rowwise conversion, and translated plus missing equals the total. The partial counter never changes. |
| `CsvToBilingualAi.TranslationStep` | scripts/csv-to-bilingual-ai.py:123-163 | An empty text gives `""` and changes nothing. Otherwise the text's answer ends up cached and no other cache entry changes. Cache hit, dictionary hit and miss each count in their own counter, and a provider other than openai or cohere answers `""`. |
| `CsvToBilingualAi.SecondCallHitsCache` | scripts/csv-to-bilingual-ai.py:134-136 | Translating the same text twice gives the same answer. The second call only counts a cache hit. |
| `CsvToBilingualAi.TranslateAllConsistent` | scripts/csv-to-bilingual-ai.py:123-163 | Over a run, every non-empty text's translation equals its cached entry. Equal texts get equal translations, and empty texts get `""`. |
| `CsvToBilingualAi.TranslateAllCounts` | scripts/csv-to-bilingual-ai.py:123-163 | Every non-empty text adds exactly one to hits plus dictionary hits plus misses. |
| `CsvToBilingualAi.DictProviderIsLookup` | scripts/csv-to-bilingual-ai.py:150-163 | With the dictionary provider and a consistent cache, every answer is the dictionary lookup. |
| `CsvToBilingualAi.HitRate` | scripts/csv-to-bilingual-ai.py:241-253 | A rate is shown exactly when some counter is non-zero. It is at most 100, and never more than the share of cache and dictionary hits. |
| `CsvToBilingualAi.TranslationService.constructor` | scripts/csv-to-bilingual-ai.py:75-96 | Provider, reply function, nine-entry dictionary, loaded cache and zero counters. |
| `CsvToBilingualAi.TranslationService.TranslateFromDict` | scripts/csv-to-bilingual-ai.py:165-176 | Exact entry else first partial match else `""`: the shared lookup rule over this script's dictionary. |
| `CsvToBilingualAi.TranslationService.CallProvider` | scripts/csv-to-bilingual-ai.py:178-239 | A missing library gives `""` and counts nothing. A reply counts an API call, a failure counts a call and an error, and the cache is untouched. |
| `CsvToBilingualAi.TranslationService.Translate` | scripts/csv-to-bilingual-ai.py:123-163 | The answer, cache and counters after the call are those of the translation step on the state before it. |
| `CsvToBilingualAi.ExtractKeywords` | scripts/csv-to-bilingual-ai.py:370-386 | An empty description gives `""`. The keyword string reads back as the keyword list of `CsvToBilingual.KeywordListProperties`, with `animal` also a stop word in English. |
| `CsvToBilingualAi.ReadInput` | scripts/csv-to-bilingual-ai.py:313-326 | A prefix of the records: all of them without a limit or with limit 0, none with a negative limit, otherwise `min(limit, n)` of them. |
| `CsvToBilingualAi.AiRowAgrees` | scripts/csv-to-bilingual-ai.py:340-366 | The English keyword column reads back as the description's keyword list with `animal` also a stop word. The Vietnamese column equals the one `scripts/csv-to-bilingual.py` writes, and so does the English column when `animal` is not among the description's words. |
| `CsvToBilingualAi.EnhancedConverter.constructor` | scripts/csv-to-bilingual-ai.py:259-280 | A fresh translator for the provider, the loaded cache, and zero counters. |
| `CsvToBilingualAi.EnhancedConverter.ProcessRow` | scripts/csv-to-bilingual-ai.py:333-366 | One row: the translation step on its stripped description, the row built from the answer, and the counters. |
| `CsvToBilingualAi.EnhancedConverter.ProcessRows` | scripts/csv-to-bilingual-ai.py:328-368 | For rows that have a description cell: row k carries the k-th answer of the translation run, and the final cache and counters are the run's. Translated plus missing equals the rows processed. |
| `DictionaryCoverage.NonEmptyDescriptions` | scripts/analyze-dictionary-coverage.py:85-88 | Only stripped, non-empty descriptions are kept, at most one per row. |
| `DictionaryCoverage.NonEmptyDescriptionsOne` | scripts/analyze-dictionary-coverage.py:85-88 | One row gives its stripped description exactly when that is non-empty. With `NonEmptyDescriptionsAppend`, this fixes the result, in file order, for every file. |
| `DictionaryCoverage.NonEmptyDescriptionsComplete` | scripts/analyze-dictionary-coverage.py:85-88 | No non-empty description is left out. |
| `DictionaryCoverage.NonEmptyDescriptionsAppend` | scripts/analyze-dictionary-coverage.py:85-88 | Reading rows in two parts keeps the same descriptions in order. |
| `DictionaryCoverage.ClassifySpec` | scripts/analyze-dictionary-coverage.py:94-111 | Exact exactly when the description is a key. A partial match names the first key occurring in it. No match exactly when neither holds. |
| `DictionaryCoverage.ClassifyAgreesWithLookup` | scripts/analyze-dictionary-coverage.py:94-111 | A description is reported missing exactly when the translator of `scripts/csv-to-bilingual.py` would answer `""`. |
| `DictionaryCoverage.ClassesPartition` | scripts/analyze-dictionary-coverage.py:94-111 | The exact, partial and missing lists partition the descriptions by their classification. |
| `DictionaryCoverage.Results` | scripts/analyze-dictionary-coverage.py:115-124 | The three percentages add up to at most 100. The coverage lies between exact plus partial and 100, coverage plus missing is at most 100, and all are 0 for no descriptions. |
| `DictionaryCoverage.CategoryOfLabel` | scripts/analyze-dictionary-coverage.py:166-168 | The category of `a;rest` is `a` stripped. |
| `DictionaryCoverage.WithCategoryAbsent` | scripts/analyze-dictionary-coverage.py:169-171 | A category that no description has collects no descriptions. |
| `DictionaryCoverage.GroupByCategory` | scripts/analyze-dictionary-coverage.py:163-171 | Groups are keyed by the distinct categories in order of first occurrence. Each group holds exactly the descriptions of its category, in order. The loop's result is the grouping `Groups` of the descriptions. |
| `DictionaryCoverage.GroupsIsGrouping` | scripts/analyze-dictionary-coverage.py:163-171 | `Groups` holds each category once, in first-seen order, with all the descriptions of that category. |
| `DictionaryCoverage.Insert` | scripts/analyze-dictionary-coverage.py:174-178 | Insertion adds exactly the one group. |
| `DictionaryCoverage.SortByCountSpec` | scripts/analyze-dictionary-coverage.py:174-178 | Sorting by size, largest first, is a permutation in non-increasing order. It is stable: groups of equal size keep their order. |
| `DictionaryCoverage.InsertBefore` | scripts/analyze-dictionary-coverage.py:174-178 | Insertion never puts one group ahead of another group of the same size that came before it, unless the first is the group being inserted. |
| `DictionaryCoverage.SortByCountStable` | scripts/analyze-dictionary-coverage.py:174-178 | Stability, pair by pair: when the sort puts one group before another of the same size, the input had them in that order. |
| `DictionaryCoverage.SortedTieOrder` | scripts/analyze-dictionary-coverage.py:163-178 | Of two sorted groups of the same size, the earlier one's category occurs first in the misses. |
| `DictionaryCoverage.SortedDistinct` | scripts/analyze-dictionary-coverage.py:163-178 | The sorted groups have distinct categories. |
| `DictionaryCoverage.LeftOutCategory` | scripts/analyze-dictionary-coverage.py:174-178 | A category left out of the top five means five are shown. It is no larger than the fifth, and when it has the same size it first occurs after the fifth's category. |
| `DictionaryCoverage.TopShape` | scripts/analyze-dictionary-coverage.py:163-178 | The first five sorted groups number `min(5, categories)`. They are non-increasing in size and have distinct categories, each with all its descriptions. |
| `DictionaryCoverage.TopTies` | scripts/analyze-dictionary-coverage.py:174-178 | Among the first five, groups of equal size are in the order their categories first occur. |
| `DictionaryCoverage.TopLeftOut` | scripts/analyze-dictionary-coverage.py:174-178 | No left-out category outranks the fifth shown, by size or, at equal size, by first occurrence. |
| `DictionaryCoverage.TopCategories` | scripts/analyze-dictionary-coverage.py:163-178 | The first five groups of the stable sort of `Groups` number `min(5, categories)`. They are distinct categories, each with all its descriptions, and non-increasing in size, with ties in first-seen order. A left-out category is no larger than the fifth and, at equal size, occurs after it. |
| `DictionaryCoverage.CoverageAnalyzer.constructor` | scripts/analyze-dictionary-coverage.py:38-52 | The dictionary of `scripts/csv-to-bilingual.py` and empty lists. |
| `DictionaryCoverage.CoverageAnalyzer.ReadCsv` | scripts/analyze-dictionary-coverage.py:80-92 | For a file whose rows have a description cell: appends the non-empty stripped descriptions and touches nothing else. |
| `DictionaryCoverage.CoverageAnalyzer.MatchPartially` | scripts/analyze-dictionary-coverage.py:101-108 | Matches exactly when some key occurs in the description. It then records the first such key, and otherwise changes nothing. |
| `DictionaryCoverage.CoverageAnalyzer.FileDescription` | scripts/analyze-dictionary-coverage.py:96-111 | Files one description in exactly the list its classification names. |
| `DictionaryCoverage.CoverageAnalyzer.AnalyzeCoverage` | scripts/analyze-dictionary-coverage.py:94-111 | Every description is filed in exactly the list its classification names, in order. |
| `DictionaryCoverage.CoverageAnalyzer.Percentages` | scripts/analyze-dictionary-coverage.py:113-124 | The printed percentages add up to at most 100. |
| `DictionaryCoverage.CoverageAnalyzer.Recommendations` | scripts/analyze-dictionary-coverage.py:152-178 | The result is the first five groups of the stable largest-first sort of the misses grouped by category. It carries all the `TopCategories` guarantees: distinct categories, ties in first-seen order, and no left-out category ranking above the fifth. |
| `GenerateEmbeddings.BatchSize` | scripts/generate-embeddings.py:211 | Every provider has a positive batch size: 100, 100 and 32. |
| `GenerateEmbeddings.KindOf` | scripts/generate-embeddings.py:56-57 | A provider is recognised exactly when its name is openai, cohere or huggingface. |
| `GenerateEmbeddings.NewGenerator` | scripts/generate-embeddings.py:42-58 | A generator is made exactly when the lower-cased provider is valid, keeping the lower-cased name and the model. The error message lists the valid providers. |
| `GenerateEmbeddings.GetGenerator` | scripts/generate-embeddings.py:431-451 | Selects the generator of the lower-cased provider, with the given model or that provider's default. An unknown provider is an error naming it. |
| `GenerateEmbeddings.GetGeneratorValidates` | scripts/generate-embeddings.py:431-451 | The factory succeeds exactly when the constructor's validation does. Its generator always has a non-empty model and passes validation unchanged. |
| `GenerateEmbeddings.KeywordsStringProperties` | scripts/generate-embeddings.py:104-110 | A keyword string has its `;` replaced by spaces, keeping its length. A keyword list joined with spaces splits back into the same words. |
| `GenerateEmbeddings.EmbeddingTextParts` | scripts/generate-embeddings.py:97-125 | The embedding text uses exactly the present fields: English description, keywords, Vietnamese description, Vietnamese keywords, in that order. `N/A` when none is present, the single text when one is. |
| `GenerateEmbeddings.EmbeddingText` | scripts/generate-embeddings.py:85-125 | The four checks compute exactly the specified embedding text. |
| `GenerateEmbeddings.ModelKey` | scripts/generate-embeddings.py:140 | `default` for no model. Otherwise the model with `/` and `.` replaced by `-`, so the key has neither. |
| `GenerateEmbeddings.OutputPath` | scripts/generate-embeddings.py:139-142 | A given path is used as it is. Otherwise the path lies in the provider's directory under `public/data` and ends in `.json`. |
| `GenerateEmbeddings.DefaultPathComponents` | scripts/generate-embeddings.py:139-142 | The default path's components are `public`, `data`, `<provider>-embeddings` and `<model key>.json`. |
| `GenerateEmbeddings.BatchCount` | scripts/generate-embeddings.py:212 | The batches cover all codes, the last one is not empty, and there are no batches for no codes. |
| `GenerateEmbeddings.BatchBounds` | scripts/generate-embeddings.py:223-225 | Every batch has between 1 and the batch size codes. |
| `GenerateEmbeddings.BatchesPrefix` | scripts/generate-embeddings.py:222-225 | The first c batches, concatenated, are the first `min(c·size, n)` codes. |
| `GenerateEmbeddings.BatchesCover` | scripts/generate-embeddings.py:222-225 | All the batches, concatenated, are exactly the codes. |
| `GenerateEmbeddings.RunSnoc` | scripts/generate-embeddings.py:222-257 | One more reply extends the run by exactly one batch step. |
| `GenerateEmbeddings.RunStaysAborted` | scripts/generate-embeddings.py:259-261 | Once the OpenAI run has exited, later replies do not revive it. |
| `GenerateEmbeddings.RunAborts` | scripts/generate-embeddings.py:222-261 | A run exits exactly when the provider is OpenAI and some batch has a fatal reply. A fatal reply is a failure other than a rate limit, or more vectors than texts. |
| `GenerateEmbeddings.RecordsCarryTheirText` | scripts/generate-embeddings.py:238-245 | Every record carries one of the input codes, that code's embedding text, and the generator's provider and model. |
| `GenerateEmbeddings.CompleteRun` | scripts/generate-embeddings.py:211-263 | When every batch gets one vector per text, the output has one record per code, in input order, and the metadata counts every code. |
| `GenerateEmbeddings.RunAtMostBatches` | scripts/generate-embeddings.py:222-257 | A run never yields more records than the codes its batches contain. |
| `GenerateEmbeddings.SkippedBatchCounted` | scripts/generate-embeddings.py:343-345 | A batch whose reply carries no vectors contributes no records. |
| `GenerateEmbeddings.SkippedBatchAbsent` | scripts/generate-embeddings.py:253-257 | As written: a rate-limited or failed batch that the run survives is missing from the output, so some code has no record. |
| `GenerateEmbeddings.RateLimitedCodeLost` | scripts/generate-embeddings.py:253-257 | As written: one code whose only request is rate limited ends with no record and no error. |
| `GenerateEmbeddings.EmbeddingTexts` | scripts/generate-embeddings.py:228 | One embedding text per code of the batch, in order. |
| `GenerateEmbeddings.EmbedBatch` | scripts/generate-embeddings.py:227-257 | One request and its reply, handled as the batch step says: the record loop, the rate-limit skip, and the exit or skip on errors. |
| `GenerateEmbeddings.Generate` | scripts/generate-embeddings.py:191-263 | The batch loop computes exactly the run over the replies, for all three providers. |
| `GenerateEmbeddings.Answered` | scripts/generate-embeddings.py:253-257 | Keeps the replies that are not rate limits, so none of the kept replies is a rate limit. |
| `GenerateEmbeddings.AnsweredAppend` | scripts/generate-embeddings.py:253-257 | Filtering distributes over concatenated reply sequences. |
| `GenerateEmbeddings.GenerateRetrying` | scripts/generate-embeddings.py:222-261 | Corrected loop that sends a rate-limited batch again: it computes the run over the answers that are not rate limits, one per batch. |
| `GenerateEmbeddings.RetryKeepsEveryRecord` | scripts/generate-embeddings.py:211-263 | Corrected loop: with a complete answer for each batch, however many rate limits come between them, every code gets its record, in order. |
| `GenerateEmbeddings.RetriedCodeKept` | scripts/generate-embeddings.py:253-257 | Corrected loop: the input that loses a code as written now keeps its record. |

## Findings

| source | as written | input that shows it | evidently intended | confidence | as-written member | corrected member |
|---|---|---|---|---|---|---|
| scripts/generate-embeddings.py:253-257 | On `RateLimitError` the loop decrements `batch_num` inside `for batch_num in range(total_batches)` and continues. The `for` reassigns `batch_num` on the next pass, so the rate-limited batch is never sent again and its codes get no records. | One HS code whose only OpenAI request is rate limited: the run ends normally with no records. | After the wait, the same batch is requested again, so every code gets a record. | not executed | `GenerateEmbeddings.RateLimitedCodeLost` | `GenerateEmbeddings.RetryKeepsEveryRecord` |

The as-written behaviour is `GenerateEmbeddings.Generate`, whose run is `GenerateEmbeddings.Run`.
`GenerateEmbeddings.SkippedBatchAbsent` states the loss in general. The corrected loop is
`GenerateEmbeddings.GenerateRetrying`, and `GenerateEmbeddings.RetriedCodeKept` replays the
counterexample against it.

## Left out

- File and console I/O is not modelled:
  - CSV, Excel and JSON files become the rows or records passed in, and outputs are the values
    returned.
  - `print`, progress messages, the sample listings of `_print_results`, and the fixed
    recommendation text are not modelled.
  - The modelled percentages are the values printed.
- The `main` functions, argument parsing, `read_excel_file`, `save_to_json`, `load_hs_codes`
  and the cache file (`_load_cache`, `_save_cache`, `auto_save`) are not modelled. The loaded
  cache is a constructor argument.
- Network calls, API keys, the `input()` prompts, clocks and `time.sleep` are not modelled.
  The replies of a provider are parameters instead:
  - translation replies are `ApiReply` values;
  - an embedding reply is given per batch, as `Reply` values.
  The `created_at` timestamp of the metadata is omitted.
- `sys.exit` is modelled as the run yielding `None`. Process termination itself is not
  modelled, nor is the exit on an empty result in `main`.
- Missing client libraries (`HAS_OPENAI`, `HAS_COHERE`) are not modelled separately. They
  are the `Unavailable` reply, with the same effect on answers and counters.
- Loading the Hugging Face model (`SentenceTransformer`, `get_sentence_embedding_dimension`)
  and its failure exit are not modelled.
- The subclass layout of the generators is not modelled; the provider kind is a parameter of
  one run.
- Python strings are modelled as `seq<char>`:
  - `lower()` lower-cases ASCII letters only;
  - `isdigit()` and `\d` accept ASCII digits only;
  - `int()` of a level accepts an optional sign and ASCII digits, without underscores or
    surrounding spaces;
  - the whitespace set is Python's `isspace` list.
- CSV rows are `map<string, string>`. A row shorter than its header, whose missing cells
  `csv.DictReader` fills with `None`, is not modelled, and a missing key reads as `""`. On
  such a row `.strip()` raises where the model goes on:
- ConvertBasicRow, ConvertExtendedRow and ConvertBilingualRow: the source catches the
  exception and skips the row when any cell it strips is missing (scripts/csv-to-json.py:104-107,
  :142-147, :183-190). The model converts the row, reading the missing cells as `""`.
- ProcessRows, in both `CsvToBilingual.BilingualConverter` and
  `CsvToBilingualAi.EnhancedConverter`: a row without its description cell makes the script
  crash, since `_process_rows` runs outside any `try` (scripts/csv-to-bilingual.py:267, :299;
  scripts/csv-to-bilingual-ai.py:299, :339). The model completes the run. Other missing cells
  become `None`, which the CSV writer writes as empty text, as in the model.
- ReadCsv: a row without its description cell makes `_read_csv` fail the whole read
  (scripts/analyze-dictionary-coverage.py:86, :90-92). The model skips the row.
- Spreadsheet cells are strings. `str(cell)` of numbers, dates and `None` cells is not
  modelled.
- In `generate-embeddings.py`, HS code items have string descriptions and keywords that are
  either a list or a string. An item with other value types makes the script raise, and is
  not modelled.
- The record `{**item, ...}` keeps the item and the four added keys apart. The model does not
  capture an item key overwritten by one of them.
- The default output path is built with `/`. Another platform's separator in `os.path.join`
  is not modelled.
- `DictLookup.LookupExact` takes distinct dictionary keys as a precondition. A Python dict
  always has them, but this is not proved for the 87-entry literal.
- In `csv-to-bilingual.py` the `partial` counter is initialised and never incremented. The
  model keeps it as a field that never changes.
- The translator's docstring promises the original text when nothing matches, but the code
  returns `""`. The model follows the code.
- `analyze-dictionary-coverage.py` imports `csv_to_bilingual`, a name under which the
  hyphenated `csv-to-bilingual.py` cannot be imported. The model takes the import to mean
  that file's dictionary.
- In the category grouping, `if words:` is always true because `split(';')` never returns an
  empty list. The model has no such branch.
- The excluded scripts are not part of this model: `generate-embeddings-openai.py`,
  `csv-to-embeddings.py`, `generate-sample-embeddings.py`, `test-bilingual-scripts.py` and
  `debug_excel.py`.
- `CsvToBilingualAi.SecondCallHitsCache`, `DictLookup.LookupMiss` and
  `GenerateEmbeddings.EmbeddingTextParts` hold directly by the definitions they talk about.
  They are kept because they state the source's promise in its own words.
