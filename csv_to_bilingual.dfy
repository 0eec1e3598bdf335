/**
 * scripts/csv-to-bilingual.py: the dictionary translator with its memo cache, keyword
 * extraction, and the row builder that produces the bilingual CSV with its statistics.
 */
module CsvToBilingual {
  import opened Common
  import opened PyStr
  import opened Seqs
  import opened DictLookup
  import opened Keywords
  import CsvToJson

  /** `TRANSLATION_DICT`, in its insertion order. */
  const TranslationDict: Dict := [
    ("Animals; live",
     "\U{0110}\U{1ED9}ng v\U{1EAD}t; s\U{1ED1}ng"),
    ("Horses, asses, mules and hinnies; live",
     "Ng\U{1EF1}a, l\U{1EEB}a, la v\U{00E0} c\U{00E1}i la; s\U{1ED1}ng"),
    ("Horses; live, pure-bred breeding animals",
     "Ng\U{1EF1}a; s\U{1ED1}ng, \U{0111}\U{1ED9}ng v\U{1EAD}t gi\U{1ED1}ng thu\U{1EA7}n ch\U{1EE7}ng"),
    ("Horses; live, other than pure-bred breeding animals",
     "Ng\U{1EF1}a; s\U{1ED1}ng, kh\U{00F4}ng ph\U{1EA3}i \U{0111}\U{1ED9}ng v\U{1EAD}t gi\U{1ED1}ng thu\U{1EA7}n ch\U{1EE7}ng"),
    ("Asses; live",
     "L\U{1EEB}a; s\U{1ED1}ng"),
    ("Mules and hinnies; live",
     "La v\U{00E0} c\U{00E1}i la; s\U{1ED1}ng"),
    ("Bovine animals; live",
     "\U{0110}\U{1ED9}ng v\U{1EAD}t thu\U{1ED9}c h\U{1ECD} ng\U{1EF1}a v\U{1EB1}n; s\U{1ED1}ng"),
    ("Cattle; live, pure-bred breeding animals",
     "Gia s\U{00FA}c; s\U{1ED1}ng, \U{0111}\U{1ED9}ng v\U{1EAD}t gi\U{1ED1}ng thu\U{1EA7}n ch\U{1EE7}ng"),
    ("Cattle; live, other than pure-bred breeding animals",
     "Gia s\U{00FA}c; s\U{1ED1}ng, kh\U{00F4}ng ph\U{1EA3}i \U{0111}\U{1ED9}ng v\U{1EAD}t gi\U{1ED1}ng thu\U{1EA7}n ch\U{1EE7}ng"),
    ("Meat of horses",
     "Th\U{1ECB}t ng\U{1EF1}a"),
    ("Meat of cattle",
     "Th\U{1ECB}t gia s\U{00FA}c"),
    ("Swine meat",
     "Th\U{1ECB}t heo"),
    ("Meat of sheep or goats",
     "Th\U{1ECB}t c\U{1EEB}u ho\U{1EB7}c d\U{00EA}"),
    ("Meat of poultry",
     "Th\U{1ECB}t gia c\U{1EA7}m"),
    ("Fish",
     "C\U{00E1}"),
    ("Crustaceans",
     "\U{0110}\U{1ED9}ng v\U{1EAD}t ch\U{00E2}n kh\U{1EDB}p n\U{01B0}\U{1EDB}c"),
    ("Molluscs and other aquatic invertebrates",
     "Th\U{00E2}n m\U{1EC1}m v\U{00E0} c\U{00E1}c \U{0111}\U{1ED9}ng v\U{1EAD}t kh\U{00F4}ng x\U{01B0}\U{01A1}ng s\U{1ED1}ng d\U{01B0}\U{1EDB}i n\U{01B0}\U{1EDB}c kh\U{00E1}c"),
    ("Milk and milk products",
     "S\U{1EEF}a v\U{00E0} c\U{00E1}c s\U{1EA3}n ph\U{1EA9}m t\U{1EEB} s\U{1EEF}a"),
    ("Eggs",
     "Tr\U{1EE9}ng"),
    ("Honey",
     "M\U{1EAD}t ong"),
    ("Edible vegetables and certain roots and tubers",
     "Rau \U{0103}n \U{0111}\U{01B0}\U{1EE3}c v\U{00E0} m\U{1ED9}t s\U{1ED1} rau c\U{1EE7} nh\U{1EA5}t \U{0111}\U{1ECB}nh"),
    ("Edible fruit and nuts",
     "Tr\U{00E1}i c\U{00E2}y \U{0103}n \U{0111}\U{01B0}\U{1EE3}c v\U{00E0} h\U{1EA1}t"),
    ("Coffee, tea and spices",
     "C\U{00E0} ph\U{00EA}, tr\U{00E0} v\U{00E0} gia v\U{1ECB}"),
    ("Cereals",
     "Ng\U{0169} c\U{1ED1}c"),
    ("Milling products",
     "S\U{1EA3}n ph\U{1EA9}m xay"),
    ("Oil seeds and oleaginous fruits",
     "H\U{1EA1}t d\U{1EA7}u v\U{00E0} qu\U{1EA3} oleaginous"),
    ("Sugar and sugar confectionery",
     "\U{0110}\U{01B0}\U{1EDD}ng v\U{00E0} k\U{1EB9}o \U{0111}\U{01B0}\U{1EDD}ng"),
    ("Residues and waste from the food industries",
     "D\U{01B0} l\U{01B0}\U{1EE3}u v\U{00E0} ch\U{1EA5}t th\U{1EA3}i t\U{1EEB} c\U{00E1}c ng\U{00E0}nh c\U{00F4}ng nghi\U{1EC7}p th\U{1EF1}c ph\U{1EA9}m"),
    ("Beverages, vinegar and vinegar substitutes",
     "\U{0110}\U{1ED3} u\U{1ED1}ng, d\U{1EA5}m v\U{00E0} c\U{00E1}c ch\U{1EA5}t thay th\U{1EBF} d\U{1EA5}m"),
    ("Preparations of meat, of fish or of crustaceans, molluscs or other aquatic invertebrates",
     "Chu\U{1EA9}n b\U{1ECB} t\U{1EEB} th\U{1ECB}t, c\U{00E1} ho\U{1EB7}c \U{0111}\U{1ED9}ng v\U{1EAD}t ch\U{00E2}n kh\U{1EDB}p, th\U{00E2}n m\U{1EC1}m ho\U{1EB7}c c\U{00E1}c \U{0111}\U{1ED9}ng v\U{1EAD}t kh\U{00F4}ng x\U{01B0}\U{01A1}ng s\U{1ED1}ng d\U{01B0}\U{1EDB}i n\U{01B0}\U{1EDB}c kh\U{00E1}c"),
    ("Residues and waste from the food industries; prepared animal feed",
     "D\U{01B0} l\U{01B0}\U{1EE3}ng v\U{00E0} ch\U{1EA5}t th\U{1EA3}i t\U{1EEB} c\U{00E1}c ng\U{00E0}nh c\U{00F4}ng nghi\U{1EC7}p th\U{1EF1}c ph\U{1EA9}m; th\U{1EE9}c \U{0103}n gia s\U{00FA}c chu\U{1EA9}n b\U{1ECB}"),
    ("Mineral products",
     "S\U{1EA3}n ph\U{1EA9}m kho\U{00E1}ng ch\U{1EA5}t"),
    ("Salt; sulphur; earth and stone; lime and cement",
     "Mu\U{1ED1}i; l\U{01B0}u hu\U{1EF3}nh; \U{0111}\U{1EA5}t v\U{00E0} \U{0111}\U{00E1}; v\U{00F4}i v\U{00E0} xi-m\U{0103}ng"),
    ("Ores, slag and ash",
     "Qu\U{1EB7}ng, x\U{1EC9} v\U{00E0} tro"),
    ("Mineral fuels, mineral oils and products of their distillation",
     "Nhi\U{00EA}n li\U{1EC7}u kho\U{00E1}ng ch\U{1EA5}t, d\U{1EA7}u kho\U{00E1}ng ch\U{1EA5}t v\U{00E0} c\U{00E1}c s\U{1EA3}n ph\U{1EA9}m c\U{1EE7}a s\U{1EF1} ch\U{01B0}ng c\U{1EA5}t c\U{1EE7}a ch\U{00FA}ng"),
    ("Chemical and allied industries",
     "C\U{00E1}c ng\U{00E0}nh c\U{00F4}ng nghi\U{1EC7}p h\U{00F3}a ch\U{1EA5}t v\U{00E0} li\U{00EA}n quan"),
    ("Organic chemicals",
     "H\U{00F3}a ch\U{1EA5}t h\U{1EEF}u c\U{01A1}"),
    ("Inorganic chemicals",
     "H\U{00F3}a ch\U{1EA5}t v\U{00F4} c\U{01A1}"),
    ("Pharmaceutical products",
     "S\U{1EA3}n ph\U{1EA9}m d\U{01B0}\U{1EE3}c ph\U{1EA9}m"),
    ("Fertilisers",
     "Ph\U{00E2}n b\U{00F3}n"),
    ("Plastics and articles thereof",
     "Ch\U{1EA5}t d\U{1EBB}o v\U{00E0} c\U{00E1}c b\U{00E0}i vi\U{1EBF}t t\U{1EEB} \U{0111}\U{00F3}"),
    ("Rubber and articles thereof",
     "Cao su v\U{00E0} c\U{00E1}c b\U{00E0}i vi\U{1EBF}t t\U{1EEB} \U{0111}\U{00F3}"),
    ("Hides and skins",
     "Da"),
    ("Leather",
     "Da thu\U{1ED9}c"),
    ("Furskins and artificial fur",
     "L\U{00F4}ng th\U{00FA} v\U{00E0} l\U{00F4}ng nh\U{00E2}n t\U{1EA1}o"),
    ("Wood and articles of wood; wood charcoal",
     "G\U{1ED7} v\U{00E0} c\U{00E1}c b\U{00E0}i vi\U{1EBF}t g\U{1ED7}; than ch\U{1EBF} g\U{1ED7}"),
    ("Pulp of wood or other fibrous cellulosic material",
     "B\U{1ED9}t g\U{1ED7} ho\U{1EB7}c c\U{00E1}c v\U{1EAD}t li\U{1EC7}u xenluloza s\U{1EE3}i kh\U{00E1}c"),
    ("Paper and paperboard and articles thereof",
     "Gi\U{1EA5}y v\U{00E0} b\U{00EC}a carton v\U{00E0} c\U{00E1}c b\U{00E0}i vi\U{1EBF}t t\U{1EEB} \U{0111}\U{00F3}"),
    ("Textiles and textile articles",
     "V\U{1EA3}i d\U{1EC7}t v\U{00E0} c\U{00E1}c b\U{00E0}i vi\U{1EBF}t d\U{1EC7}t"),
    ("Silk",
     "L\U{1EE5}a"),
    ("Wool and fine or coarse animal hair",
     "Len v\U{00E0} t\U{00F3}c m\U{1ECB}n ho\U{1EB7}c th\U{00F4} t\U{1EEB} \U{0111}\U{1ED9}ng v\U{1EAD}t"),
    ("Cotton",
     "B\U{00F4}ng"),
    ("Yarn",
     "S\U{1EE3}i"),
    ("Woven fabrics",
     "V\U{1EA3}i d\U{1EC7}t"),
    ("Knitted or crocheted fabrics",
     "V\U{1EA3}i d\U{1EC7}t kim ho\U{1EB7}c m\U{00F3}c"),
    ("Articles of apparel",
     "B\U{00E0}i vi\U{1EBF}t qu\U{1EA7}n \U{00E1}o"),
    ("Footwear",
     "Gi\U{00E0}y"),
    ("Headgear",
     "M\U{0169}"),
    ("Umbrellas",
     "\U{00D4}"),
    ("Artificial flowers",
     "Hoa nh\U{00E2}n t\U{1EA1}o"),
    ("Ceramics and products of ceramics",
     "G\U{1ED1}m s\U{1EE9} v\U{00E0} c\U{00E1}c s\U{1EA3}n ph\U{1EA9}m g\U{1ED1}m s\U{1EE9}"),
    ("Glass and glassware",
     "Th\U{1EE7}y tinh v\U{00E0} c\U{00E1}c v\U{1EAD}t t\U{1EEB} th\U{1EE7}y tinh"),
    ("Precious metals and metals clad with precious metal",
     "Kim lo\U{1EA1}i qu\U{00FD} v\U{00E0} kim lo\U{1EA1}i b\U{1ECD}c b\U{1EB1}ng kim lo\U{1EA1}i qu\U{00FD}"),
    ("Pearls",
     "Ng\U{1ECD}c trai"),
    ("Iron and steel",
     "S\U{1EAF}t v\U{00E0} th\U{00E9}p"),
    ("Articles of iron and steel",
     "B\U{00E0}i vi\U{1EBF}t t\U{1EEB} s\U{1EAF}t v\U{00E0} th\U{00E9}p"),
    ("Copper and articles thereof",
     "\U{0110}\U{1ED3}ng v\U{00E0} c\U{00E1}c b\U{00E0}i vi\U{1EBF}t t\U{1EEB} \U{0111}\U{00F3}"),
    ("Nickel and articles thereof",
     "Niken v\U{00E0} c\U{00E1}c b\U{00E0}i vi\U{1EBF}t t\U{1EEB} \U{0111}\U{00F3}"),
    ("Tin and articles thereof",
     "Thi\U{1EBF}c v\U{00E0} c\U{00E1}c b\U{00E0}i vi\U{1EBF}t t\U{1EEB} \U{0111}\U{00F3}"),
    ("Aluminium and articles thereof",
     "Nh\U{00F4}m v\U{00E0} c\U{00E1}c b\U{00E0}i vi\U{1EBF}t t\U{1EEB} \U{0111}\U{00F3}"),
    ("Lead and articles thereof",
     "Ch\U{00EC} v\U{00E0} c\U{00E1}c b\U{00E0}i vi\U{1EBF}t t\U{1EEB} \U{0111}\U{00F3}"),
    ("Zinc and articles thereof",
     "K\U{1EBD}m v\U{00E0} c\U{00E1}c b\U{00E0}i vi\U{1EBF}t t\U{1EEB} \U{0111}\U{00F3}"),
    ("Machinery and mechanical appliances",
     "M\U{00E1}y m\U{00F3}c v\U{00E0} c\U{00E1}c thi\U{1EBF}t b\U{1ECB} c\U{01A1} kh\U{00ED}"),
    ("Electrical machinery and equipment",
     "M\U{00E1}y \U{0111}i\U{1EC7}n v\U{00E0} thi\U{1EBF}t b\U{1ECB} \U{0111}i\U{1EC7}n"),
    ("Boilers, machinery and mechanical appliances",
     "N\U{1ED3}i h\U{01A1}i, m\U{00E1}y m\U{00F3}c v\U{00E0} c\U{00E1}c thi\U{1EBF}t b\U{1ECB} c\U{01A1} kh\U{00ED}"),
    ("Vehicles other than railway or tramway rolling stock",
     "Ph\U{01B0}\U{01A1}ng ti\U{1EC7}n v\U{1EAD}n t\U{1EA3}i kh\U{00E1}c ngo\U{00E0}i xe l\U{0103}n \U{0111}\U{01B0}\U{1EDD}ng s\U{1EAF}t ho\U{1EB7}c xe \U{0111}i\U{1EC7}n"),
    ("Railway or tramway locomotives, rolling stock and parts",
     "T\U{00E0}u h\U{1ECF}a ho\U{1EB7}c t\U{00E0}u \U{0111}i\U{1EC7}n, xe l\U{0103}n v\U{00E0} c\U{00E1}c b\U{1ED9} ph\U{1EAD}n"),
    ("Aircraft",
     "M\U{00E1}y bay"),
    ("Ships and floating structures",
     "T\U{00E0}u thuy\U{1EC1}n v\U{00E0} c\U{00E1}c c\U{1EA5}u tr\U{00FA}c n\U{1ED5}i"),
    ("Optical instruments",
     "D\U{1EE5}ng c\U{1EE5} quang h\U{1ECD}c"),
    ("Surgical instruments",
     "D\U{1EE5}ng c\U{1EE5} ph\U{1EAB}u thu\U{1EAD}t"),
    ("Clocks and watches",
     "\U{0110}\U{1ED3}ng h\U{1ED3} v\U{00E0} \U{0111}\U{1ED3}ng h\U{1ED3} \U{0111}eo tay"),
    ("Musical instruments",
     "D\U{1EE5}ng c\U{1EE5} \U{00E2}m nh\U{1EA1}c"),
    ("Miscellaneous manufactured articles",
     "C\U{00E1}c b\U{00E0}i vi\U{1EBF}t s\U{1EA3}n xu\U{1EA5}t kh\U{00E1}c"),
    ("Toys and games",
     "\U{0110}\U{1ED3} ch\U{01A1}i v\U{00E0} tr\U{00F2} ch\U{01A1}i"),
    ("Arms and ammunition",
     "V\U{0169} kh\U{00ED} v\U{00E0} \U{0111}\U{1EA1}n d\U{01B0}\U{1EE3}c"),
    ("Works of art",
     "T\U{00E1}c ph\U{1EA9}m ngh\U{1EC7} thu\U{1EAD}t")
  ]

  /** `TranslationService`: the dictionary and the cache of every answer given so far. */
  class TranslationService {
    const translationDict: Dict
    var cache: map<string, string>

    /** The cache only ever holds what the lookup rule answers. */
    ghost predicate Valid()
      reads this
    {
      forall t :: t in cache ==> cache[t] == Lookup(translationDict, t)
    }

    constructor()
      ensures translationDict == TranslationDict && cache == map[]
      ensures Valid()
    {
      translationDict := TranslationDict;
      cache := map[];
    }

    /**
     * `translate_description`: the cached answer, else the exact entry, else the first entry
     * whose key occurs in the text, else "", and the answer is cached.
     */
    method TranslateDescription(englishText: string) returns (r: string)
      requires Valid()
      modifies this
      ensures r == Lookup(translationDict, englishText)
      ensures cache == old(cache)[englishText := r]
      ensures Valid()
    {
      if englishText in cache {
        r := cache[englishText];
        return;
      }
      var exact := ExactIndex(translationDict, englishText);
      if exact.Some? {
        r := translationDict[exact.value].1;
        cache := cache[englishText := r];
        return;
      }
      for i := 0 to |translationDict|
        invariant forall j :: 0 <= j < i ==> !Matches(translationDict[j].0, englishText)
      {
        var (enKey, viValue) := translationDict[i];
        if Matches(enKey, englishText) {
          assert PartialIndex(translationDict, englishText) == Some(i) by {
            var k := PartialIndex(translationDict, englishText);
            assert k.Some?;
            assert !(k.value < i) && !(i < k.value);
          }
          r := viValue;
          cache := cache[englishText := r];
          return;
        }
      }
      r := "";
      cache := cache[englishText := r];
    }
  }

  // ---------------------------------------------------------------- keywords

  const StopWordsEn: set<string> := {
    "live", "other", "than", "pure", "bred", "animals", "of", "and", "or", "the", "a", "an",
    "in", "to", "for", "with", "from", "not", "this", "that", "these", "those"}

  const StopWordsVi: set<string> := {
    "s\U{1ED1}ng", "kh\U{00E1}c", "h\U{01A1}n", "thu\U{1EA7}n", "gi\U{1ED1}ng", "\U{0111}\U{1ED9}ng",
    "v\U{1EAD}t", "c\U{1EE7}a", "v\U{00E0}", "ho\U{1EB7}c", "c\U{00E1}i", "trong", "\U{0111}\U{1EC3}",
    "cho", "v\U{1EDB}i", "t\U{1EEB}", "kh\U{00F4}ng", "n\U{00E0}y", "kia", "c\U{00E1}c"}

  /** The character class `[,;()]` the keyword extractors blank out. */
  const Separators: set<char> := {',', ';', '(', ')'}

  /** The words of the lower-cased description with `[,;()]` turned into spaces. */
  function KeywordWords(description: string): seq<string>
  {
    Words(ReplaceChars(Lower(description), Separators, ' '))
  }

  /** The keywords before they are joined: the first five words that pass the filter. */
  function KeywordList(description: string, stop: set<string>): seq<string>
  {
    Prefix(Filtered(KeywordWords(description), stop), 5)
  }

  function StopWords(language: string): set<string>
  {
    if language == "en" then StopWordsEn else StopWordsVi
  }

  /** `get_keywords_from_description` */
  function GetKeywords(description: string, language: string): string
  {
    Join(KeywordList(description, StopWords(language)), ", ")
  }

  /**
   * At most five keywords, each longer than two characters, not a stop word, free of `,;()`
   * and of whitespace. They are every passing word of a leading stretch of the description's
   * words, in order (`FilteredAppend`), and that stretch is all the words when fewer than five
   * pass: then every passing word is a keyword.
   */
  lemma KeywordListProperties(description: string, stop: set<string>)
    ensures var r := KeywordList(description, stop);
      && |r| <= 5
      && (forall k :: 0 <= k < |r| ==>
            && |r[k]| > 2 && r[k] !in stop && r[k] in KeywordWords(description)
            && NoSpace(r[k]) && (forall c :: c in Separators ==> c !in r[k]))
      && (exists n :: 0 <= n <= |KeywordWords(description)|
            && r == Filtered(KeywordWords(description)[..n], stop)
            && (|r| == 5 || n == |KeywordWords(description)|))
      && (|r| < 5 ==> forall w :: w in KeywordWords(description) && |w| > 2 && w !in stop ==> w in r)
  {
    FilteredPrefix(KeywordWords(description), stop, 5);
    FilteredComplete(KeywordWords(description), stop);
    var text := ReplaceChars(Lower(description), Separators, ' ');
    var ws := Words(text);
    var r := KeywordList(description, stop);
    forall c | c in Separators ensures forall k :: 0 <= k < |ws| ==> c !in ws[k] {
      assert c !in text by {
        assert forall i :: 0 <= i < |text| ==> text[i] != c;
      }
      WordsChars(text, c);
    }
    var f := Filtered(ws, stop);
    assert forall k :: 0 <= k < |r| ==> r[k] == f[k];
  }

  /**
   * What the bilingual CSV stores in its keyword column, `parse_keywords` reads back: for
   * `GetKeywords(description, language)` take `stop := StopWords(language)`.
   */
  lemma KeywordsReadBack(description: string, stop: set<string>)
    ensures CsvToJson.ParseKeywords(Join(KeywordList(description, stop), ", "))
         == KeywordList(description, stop)
  {
    var r := KeywordList(description, stop);
    KeywordListProperties(description, stop);
    forall k | 0 <= k < |r| ensures CsvToJson.IsKeyword(r[k]) {
      assert ',' in Separators;
      assert !IsSpace(r[k][0]) && !IsSpace(r[k][|r[k]| - 1]);
    }
    CsvToJson.ParseKeywordsOfJoin(r);
  }

  // ---------------------------------------------------------------- rows and statistics

  datatype BilingualRow = BilingualRow(
    code: string,
    menu: string,
    description: string,
    descriptionVi: string,
    keywords: string,
    keywordsVi: string,
    chapter: string,
    level: string)

  /** The bilingual row built from one input row, given the translation of its description. */
  function BilingualRowOf(row: Row, descriptionVi: string): (r: BilingualRow)
    ensures r.code == Get(row, "hscode") && r.menu == Get(row, "section")
    ensures r.chapter == Get(row, "parent") && r.level == Get(row, "level")
    ensures r.description == Strip(Get(row, "description")) && r.descriptionVi == descriptionVi
    ensures r.keywords == GetKeywords(r.description, "en")
    ensures descriptionVi == "" ==> r.keywordsVi == ""
    ensures descriptionVi != "" ==> r.keywordsVi == GetKeywords(descriptionVi, "vi")
  {
    var description := Strip(Get(row, "description"));
    BilingualRow(Get(row, "hscode"), Get(row, "section"), description, descriptionVi,
                 GetKeywords(description, "en"),
                 if descriptionVi != "" then GetKeywords(descriptionVi, "vi") else "",
                 Get(row, "parent"), Get(row, "level"))
  }

  /**
   * The keyword columns of a bilingual row read back, through `parse_keywords` of
   * scripts/csv-to-json.py, as the keywords of its description and of its translation; a row
   * without a translation has no Vietnamese keywords.
   */
  lemma BilingualRowReadBack(row: Row, descriptionVi: string)
    ensures var r := BilingualRowOf(row, descriptionVi);
      && CsvToJson.ParseKeywords(r.keywords) == KeywordList(r.description, StopWordsEn)
      && (descriptionVi == "" ==> r.keywordsVi == "")
      && (descriptionVi != "" ==>
            CsvToJson.ParseKeywords(r.keywordsVi) == KeywordList(descriptionVi, StopWordsVi))
  {
    KeywordsReadBack(Strip(Get(row, "description")), StopWordsEn);
    KeywordsReadBack(descriptionVi, StopWordsVi);
  }

  /** The rows `_process_rows` produces, with a dictionary `d` behind the translator. */
  function Bilingual(d: Dict, rows: seq<Row>): (r: seq<BilingualRow>)
    ensures |r| == |rows|
  {
    Map(row => TranslatedRow(d, row), rows)
  }

  /** The bilingual row of one input row, translated by the dictionary lookup rule. */
  function TranslatedRow(d: Dict, row: Row): BilingualRow
  {
    BilingualRowOf(row, Lookup(d, Strip(Get(row, "description"))))
  }

  /** Row `k` of the output is built from input row `k` and the dictionary's answer for its description. */
  lemma BilingualRowwise(d: Dict, rows: seq<Row>, k: nat)
    requires k < |rows|
    ensures Bilingual(d, rows)[k] == TranslatedRow(d, rows[k])
  {
    MapAt(row => TranslatedRow(d, row), rows, k);
  }

  /** How many of the produced rows carry a translation. */
  function CountTranslated(out: seq<BilingualRow>): (n: nat)
    ensures n <= |out|
  {
    if out == [] then 0
    else CountTranslated(out[..|out| - 1]) + (if out[|out| - 1].descriptionVi != "" then 1 else 0)
  }

  /** The two percentages `_print_stats` shows. */
  function StatsPercents(total: nat, translated: nat, missing: nat): (r: (nat, nat))
    requires total == translated + missing
    ensures r.0 + r.1 <= 100
    ensures total == 0 ==> r == (0, 0)
  {
    PercentsOfPartition(translated, missing, total);
    (Percent(translated, total), Percent(missing, total))
  }

  /** `CSVBilingualConverter`: the translator and the four counters of `self.stats`. */
  class BilingualConverter {
    const translator: TranslationService
    var total: nat
    var translated: nat
    var partial: nat
    var missing: nat

    ghost predicate Valid()
      reads this, translator
    {
      translator.Valid() && total == translated + missing
    }

    constructor()
      ensures fresh(translator) && translator.cache == map[]
      ensures translator.translationDict == TranslationDict
      ensures total == 0 && translated == 0 && partial == 0 && missing == 0
      ensures Valid()
    {
      translator := new TranslationService();
      total, translated, partial, missing := 0, 0, 0, 0;
    }

    /** The body of `_process_rows` for one row: translate, count, build the bilingual row. */
    method ProcessRow(row: Row) returns (r: BilingualRow)
      requires Valid()
      modifies this, translator
      ensures Valid()
      ensures r == BilingualRowOf(row, Lookup(translator.translationDict, Strip(Get(row, "description"))))
      ensures total == old(total) + 1
      ensures translated == old(translated) + (if r.descriptionVi != "" then 1 else 0)
      ensures missing == old(missing) + (if r.descriptionVi != "" then 0 else 1)
      ensures partial == old(partial)
    {
      total := total + 1;
      var descriptionEn := Strip(Get(row, "description"));
      var descriptionVi := translator.TranslateDescription(descriptionEn);
      if descriptionVi != "" {
        translated := translated + 1;
      } else {
        missing := missing + 1;
      }
      r := BilingualRowOf(row, descriptionVi);
    }

    /** `_process_rows`: one bilingual row per input row, and the counters. */
    method ProcessRows(rows: seq<Row>) returns (processed: seq<BilingualRow>)
      requires Valid()
      modifies this, translator
      ensures Valid()
      ensures processed == Bilingual(translator.translationDict, rows)
      ensures total == old(total) + |rows|
      ensures translated == old(translated) + CountTranslated(processed)
      ensures missing == old(missing) + (|rows| - CountTranslated(processed))
      ensures partial == old(partial)
    {
      processed := [];
      for i := 0 to |rows|
        invariant Valid()
        invariant processed == Bilingual(translator.translationDict, rows[..i])
        invariant total == old(total) + i
        invariant translated == old(translated) + CountTranslated(processed)
        invariant missing == old(missing) + (i - CountTranslated(processed))
        invariant partial == old(partial)
      {
        assert rows[..i + 1][..i] == rows[..i];
        var bilingualRow := ProcessRow(rows[i]);
        assert (processed + [bilingualRow])[..i] == processed;
        processed := processed + [bilingualRow];
      }
      assert rows[..|rows|] == rows;
    }
  }
}
