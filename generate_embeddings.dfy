/**
 * scripts/generate-embeddings.py: the provider check and the default model of each generator,
 * the text each HS code is embedded from, the default output path and the metadata of the
 * saved file, and the batch loop of the three generators.
 *
 * The embedding provider is not called: its answer to each request is a parameter
 * (`answers`, one per request in the order the requests are sent), so the model speaks about
 * every possible behaviour of the remote service at once.
 */
module GenerateEmbeddings {
  import opened Common
  import opened PyStr
  import Seqs

  // ---------------------------------------------------------------- providers and generators

  const ValidProviders: seq<string> := ["openai", "cohere", "huggingface"]

  /** The three generator subclasses. */
  datatype Kind = OpenAi | Cohere | HuggingFace

  function Name(kind: Kind): string
  {
    match kind
    case OpenAi => "openai"
    case Cohere => "cohere"
    case HuggingFace => "huggingface"
  }

  /** The default `model` argument of each subclass's constructor. */
  function DefaultModel(kind: Kind): string
  {
    match kind
    case OpenAi => "text-embedding-3-small"
    case Cohere => "embed-english-v3.0"
    case HuggingFace => "BAAI/bge-base-en-v1.5"
  }

  /** The `batch_size` of each subclass's `generate`. */
  function BatchSize(kind: Kind): (size: nat)
    ensures size > 0
  {
    match kind
    case OpenAi => 100
    case Cohere => 100
    case HuggingFace => 32
  }

  /** The generator a provider name selects. */
  function KindOf(name: string): (r: Option<Kind>)
    ensures r.Some? <==> name in ValidProviders
    ensures r.Some? ==> Name(r.value) == name
  {
    if name == "openai" then Some(OpenAi)
    else if name == "cohere" then Some(Cohere)
    else if name == "huggingface" then Some(HuggingFace)
    else None
  }

  /** What `EmbeddingsGenerator.__init__` stores: the lower-cased provider and the model. */
  datatype Generator = Generator(provider: string, model: Option<string>)

  /** `EmbeddingsGenerator.__init__`, which lower-cases the provider and validates it. */
  function NewGenerator(provider: string, model: Option<string>): (r: Result<Generator>)
    ensures r.Ok? <==> Lower(provider) in ValidProviders
    ensures r.Ok? ==> r.value.provider == Lower(provider) && r.value.model == model
    ensures r.Err? ==> r.message == "Invalid provider. Must be one of: openai, cohere, huggingface"
  {
    var name := Lower(provider);
    if name in ValidProviders then Ok(Generator(name, model))
    else Err("Invalid provider. Must be one of: openai, cohere, huggingface")
  }

  /** `model or default`: a missing or empty model name gives way to the default. */
  function ModelOr(model: Option<string>, default: string): string
  {
    if model.Some? && model.value != "" then model.value else default
  }

  /**
   * `get_generator`: lower-case the provider, pick the subclass, and pass it the given model or
   * that subclass's default; any other provider raises.
   */
  function GetGenerator(provider: string, model: Option<string>): (r: Result<Generator>)
    ensures r.Ok? <==> KindOf(Lower(provider)).Some?
    ensures r.Ok? ==>
      var kind := KindOf(Lower(provider)).value;
      r.value == Generator(Name(kind), Some(ModelOr(model, DefaultModel(kind))))
    ensures r.Err? ==> r.message == "Unknown provider: " + Lower(provider)
  {
    var name := Lower(provider);
    if name == "openai" then Ok(Generator("openai", Some(ModelOr(model, "text-embedding-3-small"))))
    else if name == "cohere" then Ok(Generator("cohere", Some(ModelOr(model, "embed-english-v3.0"))))
    else if name == "huggingface" then
      Ok(Generator("huggingface", Some(ModelOr(model, "BAAI/bge-base-en-v1.5"))))
    else Err("Unknown provider: " + name)
  }

  lemma LowerCharIdempotent(c: char)
    ensures LowerChar(LowerChar(c)) == LowerChar(c)
  {
  }

  lemma LowerIdempotent(s: string)
    ensures Lower(Lower(s)) == Lower(s)
  {
    forall i | 0 <= i < |s| ensures Lower(Lower(s))[i] == Lower(s)[i] {
      LowerCharIdempotent(s[i]);
    }
  }

  /**
   * `get_generator` accepts exactly the providers the base constructor accepts, always names a
   * model, and what it builds passes the constructor's own validation unchanged.
   */
  lemma GetGeneratorValidates(provider: string, model: Option<string>)
    ensures GetGenerator(provider, model).Ok? <==> NewGenerator(provider, model).Ok?
    ensures GetGenerator(provider, model).Ok? ==>
      var g := GetGenerator(provider, model).value;
      && g.model.Some? && g.model.value != ""
      && NewGenerator(g.provider, g.model) == Ok(g)
  {
    if GetGenerator(provider, model).Ok? {
      var g := GetGenerator(provider, model).value;
      LowerIdempotent(provider);
      assert g.provider == Lower(provider);
    }
  }

  // ---------------------------------------------------------------- the text to embed

  /** A `keywords` value: a JSON list of words, or a `;`-separated string. */
  datatype Keywords = KeywordList(words: seq<string>) | KeywordText(text: string)

  /**
   * One element of the input's `hs_codes` list: the four fields the embedding text is built
   * from (absent or present), and the other fields, which are carried into the output.
   */
  datatype HsCode = HsCode(
    description: Option<string>, keywords: Option<Keywords>,
    descriptionVi: Option<string>, keywordsVi: Option<Keywords>,
    others: map<string, string>)

  /** The four fields, in the order `_get_embedding_text` looks at them. */
  datatype Field = Description | KeywordsEn | DescriptionVi | KeywordsVi

  function Rank(f: Field): nat
  {
    match f
    case Description => 0
    case KeywordsEn => 1
    case DescriptionVi => 2
    case KeywordsVi => 3
  }

  predicate TextPresent(v: Option<string>)
  {
    v.Some? && v.value != ""
  }

  predicate KeywordsPresent(v: Option<Keywords>)
  {
    v.Some? && match v.value
      case KeywordList(words) => words != []
      case KeywordText(text) => text != ""
  }

  /** `key in item and item[key]`: present and truthy. */
  predicate Present(item: HsCode, f: Field)
  {
    match f
    case Description => TextPresent(item.description)
    case KeywordsEn => KeywordsPresent(item.keywords)
    case DescriptionVi => TextPresent(item.descriptionVi)
    case KeywordsVi => KeywordsPresent(item.keywordsVi)
  }

  /** A keyword list joined by spaces; a keyword string with each `;` made a space. */
  function KeywordsString(k: Keywords): string
  {
    match k
    case KeywordList(words) => Join(words, " ")
    case KeywordText(text) => ReplaceChars(text, {';'}, ' ')
  }

  /** The keyword text keeps no `;`, and splitting a joined word list gives back its words. */
  lemma KeywordsStringProperties(k: Keywords)
    ensures k.KeywordText? ==> ';' !in KeywordsString(k) && |KeywordsString(k)| == |k.text|
    ensures k.KeywordList? && (forall i :: 0 <= i < |k.words| ==> k.words[i] != [] && NoSpace(k.words[i])) ==>
      Words(KeywordsString(k)) == k.words
  {
    if k.KeywordList? && (forall i :: 0 <= i < |k.words| ==> k.words[i] != [] && NoSpace(k.words[i])) {
      WordsOfJoin(k.words);
    }
  }

  /** The text a present field contributes. */
  function FieldText(item: HsCode, f: Field): string
    requires Present(item, f)
  {
    match f
    case Description => item.description.value
    case KeywordsEn => KeywordsString(item.keywords.value)
    case DescriptionVi => item.descriptionVi.value
    case KeywordsVi => KeywordsString(item.keywordsVi.value)
  }

  function Maybe(item: HsCode, f: Field): seq<Field>
  {
    if Present(item, f) then [f] else []
  }

  /** The fields that contribute to the text, in the order they are appended. */
  function PresentFields(item: HsCode): seq<Field>
  {
    Maybe(item, Description) + Maybe(item, KeywordsEn) + Maybe(item, DescriptionVi) + Maybe(item, KeywordsVi)
  }

  /** The local `texts` list after the fields `fs` have been appended. */
  function Texts(item: HsCode, fs: seq<Field>): (r: seq<string>)
    requires forall i :: 0 <= i < |fs| ==> Present(item, fs[i])
    ensures |r| == |fs|
  {
    seq(|fs|, i requires 0 <= i < |fs| => FieldText(item, fs[i]))
  }

  /** The value of `_get_embedding_text(item)`. */
  function EmbeddingTextOf(item: HsCode): string
  {
    var parts := Texts(item, PresentFields(item));
    if parts != [] then Join(parts, " | ") else "N/A"
  }

  /**
   * The parts come from exactly the present fields, each once, in the fixed order description,
   * keywords, Vietnamese description, Vietnamese keywords; with none the text is `N/A`, and a
   * single part is the whole text.
   */
  lemma EmbeddingTextParts(item: HsCode)
    ensures forall f :: f in PresentFields(item) <==> Present(item, f)
    ensures forall i, j :: 0 <= i < j < |PresentFields(item)| ==>
      Rank(PresentFields(item)[i]) < Rank(PresentFields(item)[j])
    ensures PresentFields(item) == [] ==> EmbeddingTextOf(item) == "N/A"
    ensures |PresentFields(item)| == 1 ==>
      EmbeddingTextOf(item) == FieldText(item, PresentFields(item)[0])
  {
  }

  lemma TextsSnoc(item: HsCode, fs: seq<Field>, f: Field)
    requires forall i :: 0 <= i < |fs| ==> Present(item, fs[i])
    requires Present(item, f)
    ensures Texts(item, fs + [f]) == Texts(item, fs) + [FieldText(item, f)]
  {
  }

  /** `_get_embedding_text`, appending to `texts` field by field and joining at the end. */
  method EmbeddingText(item: HsCode) returns (text: string)
    ensures text == EmbeddingTextOf(item)
  {
    var texts: seq<string> := [];
    ghost var fields: seq<Field> := [];
    if Present(item, Description) {
      TextsSnoc(item, fields, Description);
      texts := texts + [item.description.value];
      fields := fields + [Description];
    }
    if Present(item, KeywordsEn) {
      TextsSnoc(item, fields, KeywordsEn);
      texts := texts + [KeywordsString(item.keywords.value)];
      fields := fields + [KeywordsEn];
    }
    if Present(item, DescriptionVi) {
      TextsSnoc(item, fields, DescriptionVi);
      texts := texts + [item.descriptionVi.value];
      fields := fields + [DescriptionVi];
    }
    if Present(item, KeywordsVi) {
      TextsSnoc(item, fields, KeywordsVi);
      texts := texts + [KeywordsString(item.keywordsVi.value)];
      fields := fields + [KeywordsVi];
    }
    assert fields == PresentFields(item);
    text := if texts != [] then Join(texts, " | ") else "N/A";
  }

  // ---------------------------------------------------------------- output path and metadata

  /** `(model or 'default').replace('/', '-').replace('.', '-')` */
  function ModelKey(model: Option<string>): (key: string)
    ensures '/' !in key && '.' !in key
    ensures (model.None? || model.value == "") ==> key == "default"
    ensures model.Some? && model.value != "" ==>
      |key| == |model.value| &&
      forall i :: 0 <= i < |key| ==>
        key[i] == (if model.value[i] == '/' || model.value[i] == '.' then '-' else model.value[i])
  {
    ReplaceChars(ModelOr(model, "default"), {'/', '.'}, '-')
  }

  /** `public/data/{provider}-embeddings` */
  function OutputDir(provider: string): string
  {
    "public" + "/" + "data" + "/" + provider + "-embeddings"
  }

  /** The file `save_embeddings` writes: the given path, or the default one under the output directory. */
  function OutputPath(g: Generator, output: Option<string>): (path: string)
    ensures output.Some? && output.value != "" ==> path == output.value
    ensures output.None? || output.value == "" ==>
      StartsWith(path, OutputDir(g.provider) + "/") && EndsWith(path, ".json")
  {
    if output.Some? && output.value != "" then output.value
    else OutputDir(g.provider) + "/" + ModelKey(g.model) + ".json"
  }

  lemma SplitWithoutSeparator(a: string, sep: char)
    requires sep !in a
    ensures Split(a, sep) == [a]
  {
    SplitPrefix(a, "", sep);
    assert a + "" == a;
  }

  /**
   * The default path has exactly four components, the last of which is the model key: a model
   * name with `/` in it (`BAAI/bge-base-en-v1.5`) does not create a sub-directory.
   */
  lemma DefaultPathComponents(g: Generator)
    requires '/' !in g.provider
    ensures Split(OutputPath(g, None), '/') ==
      ["public", "data", g.provider + "-embeddings", ModelKey(g.model) + ".json"]
  {
    var file := ModelKey(g.model) + ".json";
    assert OutputPath(g, None) == OutputDir(g.provider) + "/" + file;
    PathShape(g.provider, file);
    SplitFour("public", "data", g.provider + "-embeddings", file, '/');
  }

  lemma PathShape(provider: string, file: string)
    ensures OutputDir(provider) + "/" + file ==
      "public" + ['/'] + ("data" + ['/'] + (provider + "-embeddings" + ['/'] + file))
  {
    assert "/" == ['/'];
  }

  lemma SplitFour(a: string, b: string, c: string, d: string, sep: char)
    requires sep !in a && sep !in b && sep !in c && sep !in d
    ensures Split(a + [sep] + (b + [sep] + (c + [sep] + d)), sep) == [a, b, c, d]
  {
    SplitWithoutSeparator(d, sep);
    SplitAfterSeparator(c, d, sep);
    SplitAfterSeparator(b, c + [sep] + d, sep);
    SplitAfterSeparator(a, b + [sep] + (c + [sep] + d), sep);
  }

  /** An embedding vector, as the provider returns it. */
  type Vector = seq<real>

  /** `{**item, 'embedding': ..., 'provider': ..., 'model': ..., 'embedding_text': ...}` */
  datatype Record = Record(code: HsCode, embedding: Vector, provider: string, model: Option<string>,
                           embeddingText: string)

  /** The `metadata` object of the saved file, without its `created_at` clock reading. */
  datatype Metadata = Metadata(provider: string, model: Option<string>, totalCodes: nat,
                               embeddingDim: nat, version: string)

  function MetadataOf(g: Generator, embeddings: seq<Record>): (m: Metadata)
    ensures m.provider == g.provider && m.model == g.model && m.version == "1.0"
    ensures m.totalCodes == |embeddings|
    ensures m.embeddingDim == if embeddings == [] then 0 else |embeddings[0].embedding|
  {
    Metadata(g.provider, g.model, |embeddings|,
             if embeddings != [] then |embeddings[0].embedding| else 0, "1.0")
  }

  // ---------------------------------------------------------------- batches

  /** `(n + batch_size - 1) // batch_size`: the ceiling of `n / size`. */
  function BatchCount(n: nat, size: nat): (c: nat)
    requires size > 0
    ensures c * size >= n
    ensures n > 0 ==> (c - 1) * size < n
    ensures c == 0 <==> n == 0
  {
    var q := (n + size - 1) / size;
    var s := (n + size - 1) % size;
    assert q * size + s == n + size - 1;
    if n == 0 then
      assert q == 0;
      0
    else
      assert (q - 1) * size == q * size - size;
      q
  }

  /** `hs_codes[k * size : min(k * size + size, n)]`, empty once the start is past the end. */
  function Batch<T>(xs: seq<T>, size: nat, k: nat): seq<T>
    requires size > 0
  {
    if k * size >= |xs| then [] else xs[k * size .. Min(k * size + size, |xs|)]
  }

  /** The batches `0 .. c - 1` one after another. */
  function Batches<T>(xs: seq<T>, size: nat, c: nat): seq<T>
    requires size > 0
  {
    if c == 0 then [] else Batches(xs, size, c - 1) + Batch(xs, size, c - 1)
  }

  /** Every batch the loop visits is non-empty and holds at most `size` items. */
  lemma BatchBounds<T>(xs: seq<T>, size: nat, k: nat)
    requires size > 0 && k < BatchCount(|xs|, size)
    ensures 0 < |Batch(xs, size, k)| <= size
  {
    var c := BatchCount(|xs|, size);
    assert (c - 1) * size < |xs|;
    assert k * size <= (c - 1) * size by {
      assert (c - 1) * size == k * size + (c - 1 - k) * size;
    }
  }

  lemma SliceJoin<T>(xs: seq<T>, a: nat, b: nat)
    requires a <= b <= |xs|
    ensures xs[..a] + xs[a..b] == xs[..b]
  {
  }

  lemma MulSucc(k: nat, size: nat)
    ensures (k + 1) * size == k * size + size
  {
  }

  /** The first `c` batches are the first `c * size` items (or all of them). */
  lemma {:induction false} BatchesPrefix<T>(xs: seq<T>, size: nat, c: nat)
    requires size > 0
    ensures Batches(xs, size, c) == xs[..Min(c * size, |xs|)]
  {
    if c > 0 {
      BatchesPrefix(xs, size, c - 1);
      var start := (c - 1) * size;
      MulSucc(c - 1, size);
      if start < |xs| {
        SliceJoin(xs, start, Min(start + size, |xs|));
      }
    }
  }

  /** The batches of the loop cover every item exactly once, in order. */
  lemma BatchesCover<T>(xs: seq<T>, size: nat)
    requires size > 0
    ensures Batches(xs, size, BatchCount(|xs|, size)) == xs
  {
    BatchesPrefix(xs, size, BatchCount(|xs|, size));
  }

  // ---------------------------------------------------------------- the generate loop

  /**
   * The provider's answer to one batch request: the embeddings, a rate-limit error (only the
   * OpenAI client raises one the script catches apart), or any other error.
   */
  datatype Reply = Vectors(vectors: seq<Vector>) | RateLimited | Failed

  /** The records for the first `n` items of a batch and the first `n` vectors. */
  function Embedded(g: Generator, batch: seq<HsCode>, vs: seq<Vector>, n: nat): (r: seq<Record>)
    requires n <= |batch| && n <= |vs|
    ensures |r| == n
  {
    seq(n, j requires 0 <= j < n => Record(batch[j], vs[j], g.provider, g.model, EmbeddingTextOf(batch[j])))
  }

  /** An answer the OpenAI generator does not survive: an unexpected error, or more vectors than texts. */
  predicate Fatal(batch: seq<HsCode>, reply: Reply)
  {
    reply.Failed? || (reply.Vectors? && |reply.vectors| > |batch|)
  }

  /**
   * One pass of the batch loop, from the records so far: one record per returned vector, while
   * there are items to pair it with. The OpenAI generator exits on an unexpected error and on
   * surplus vectors (its outer handler), and skips a rate-limited batch; the Cohere and Hugging
   * Face generators skip the batch on any error, keeping what was already appended.
   */
  function BatchStep(kind: Kind, g: Generator, batch: seq<HsCode>, reply: Reply, out: seq<Record>)
    : Option<seq<Record>>
  {
    if kind == OpenAi && Fatal(batch, reply) then None
    else if reply.Vectors? then
      Some(out + Embedded(g, batch, reply.vectors, Min(|batch|, |reply.vectors|)))
    else Some(out)
  }

  /** The records after the batches `0 .. |replies| - 1`, batch `k` answered by `replies[k]`; `None`: the script exits. */
  function Run(kind: Kind, g: Generator, codes: seq<HsCode>, replies: seq<Reply>): Option<seq<Record>>
  {
    if replies == [] then Some([])
    else
      var k := |replies| - 1;
      match Run(kind, g, codes, replies[..k])
      case None => None
      case Some(out) => BatchStep(kind, g, Batch(codes, BatchSize(kind), k), replies[k], out)
  }

  lemma RunSnoc(kind: Kind, g: Generator, codes: seq<HsCode>, replies: seq<Reply>, k: nat)
    requires k < |replies|
    ensures Run(kind, g, codes, replies[..k + 1]) ==
      match Run(kind, g, codes, replies[..k])
      case None => None
      case Some(out) => BatchStep(kind, g, Batch(codes, BatchSize(kind), k), replies[k], out)
  {
    assert replies[..k + 1][..k] == replies[..k];
  }

  /** Once the script has exited, later answers change nothing. */
  lemma {:induction false} RunStaysAborted(kind: Kind, g: Generator, codes: seq<HsCode>, replies: seq<Reply>, k: nat)
    requires k <= |replies| && Run(kind, g, codes, replies[..k]) == None
    ensures Run(kind, g, codes, replies) == None
    decreases |replies| - k
  {
    if k < |replies| {
      RunSnoc(kind, g, codes, replies, k);
      RunStaysAborted(kind, g, codes, replies, k + 1);
    } else {
      assert replies[..k] == replies;
    }
  }

  /**
   * Only the OpenAI generator exits, and it exits exactly when some batch gets a fatal
   * answer.
   */
  lemma {:induction false} RunAborts(kind: Kind, g: Generator, codes: seq<HsCode>, replies: seq<Reply>)
    ensures Run(kind, g, codes, replies).None? <==>
      kind == OpenAi &&
      exists k :: 0 <= k < |replies| && Fatal(Batch(codes, BatchSize(kind), k), replies[k])
  {
    if replies != [] {
      var k := |replies| - 1;
      var init := replies[..k];
      RunAborts(kind, g, codes, init);
      assert forall j :: 0 <= j < k ==> init[j] == replies[j];
    }
  }

  /** Every record pairs an input item with its own embedding text, provider and model. */
  lemma {:induction false} RecordsCarryTheirText(kind: Kind, g: Generator, codes: seq<HsCode>, replies: seq<Reply>)
    requires Run(kind, g, codes, replies).Some?
    ensures forall r :: r in Run(kind, g, codes, replies).value ==>
      r.code in codes && r.embeddingText == EmbeddingTextOf(r.code) &&
      r.provider == g.provider && r.model == g.model
  {
    if replies != [] {
      var k := |replies| - 1;
      RecordsCarryTheirText(kind, g, codes, replies[..k]);
      var batch := Batch(codes, BatchSize(kind), k);
      assert forall x :: x in batch ==> x in codes;
    }
  }

  /** Answers with one vector per text for each of the batches `0 .. |replies| - 1`. */
  predicate Complete(kind: Kind, codes: seq<HsCode>, replies: seq<Reply>)
  {
    forall k :: 0 <= k < |replies| ==>
      replies[k].Vectors? && |replies[k].vectors| == |Batch(codes, BatchSize(kind), k)|
  }

  function CodesOf(out: seq<Record>): (r: seq<HsCode>)
    ensures |r| == |out| && forall i :: 0 <= i < |out| ==> r[i] == out[i].code
  {
    seq(|out|, i requires 0 <= i < |out| => out[i].code)
  }

  lemma CompletePrefix(kind: Kind, codes: seq<HsCode>, replies: seq<Reply>, k: nat)
    requires k <= |replies| && Complete(kind, codes, replies)
    ensures Complete(kind, codes, replies[..k])
  {
    assert forall j :: 0 <= j < k ==> replies[..k][j] == replies[j];
  }

  lemma CodesOfEmbedded(out: seq<Record>, g: Generator, batch: seq<HsCode>, vs: seq<Vector>)
    requires |vs| == |batch|
    ensures CodesOf(out + Embedded(g, batch, vs, |batch|)) == CodesOf(out) + batch
  {
  }

  lemma {:induction false} CompleteRunCodes(kind: Kind, g: Generator, codes: seq<HsCode>, replies: seq<Reply>)
    requires Complete(kind, codes, replies)
    ensures Run(kind, g, codes, replies).Some?
    ensures CodesOf(Run(kind, g, codes, replies).value) == Batches(codes, BatchSize(kind), |replies|)
  {
    if replies != [] {
      var k := |replies| - 1;
      CompletePrefix(kind, codes, replies, k);
      CompleteRunCodes(kind, g, codes, replies[..k]);
      var batch := Batch(codes, BatchSize(kind), k);
      CodesOfEmbedded(Run(kind, g, codes, replies[..k]).value, g, batch, replies[k].vectors);
    }
  }

  /**
   * When the provider answers every batch with one vector per text, the output holds one
   * record per input item, in input order, and the metadata counts them all.
   */
  lemma CompleteRun(kind: Kind, g: Generator, codes: seq<HsCode>, replies: seq<Reply>)
    requires |replies| == BatchCount(|codes|, BatchSize(kind))
    requires Complete(kind, codes, replies)
    ensures Run(kind, g, codes, replies).Some?
    ensures var out := Run(kind, g, codes, replies).value;
      && |out| == |codes|
      && (forall i :: 0 <= i < |codes| ==> out[i].code == codes[i])
      && MetadataOf(g, out).totalCodes == |codes|
  {
    CompleteRunCodes(kind, g, codes, replies);
    BatchesCover(codes, BatchSize(kind));
  }

  /** No run holds more records than the batches it visited have items. */
  lemma {:induction false} RunAtMostBatches(kind: Kind, g: Generator, codes: seq<HsCode>, replies: seq<Reply>)
    requires Run(kind, g, codes, replies).Some?
    ensures |Run(kind, g, codes, replies).value| <= |Batches(codes, BatchSize(kind), |replies|)|
  {
    if replies != [] {
      RunAtMostBatches(kind, g, codes, replies[..|replies| - 1]);
    }
  }

  lemma {:induction false} SkippedBatchCounted(kind: Kind, g: Generator, codes: seq<HsCode>, replies: seq<Reply>, k: nat)
    requires k < |replies| && !replies[k].Vectors?
    requires Run(kind, g, codes, replies).Some?
    ensures |Run(kind, g, codes, replies).value| + |Batch(codes, BatchSize(kind), k)|
      <= |Batches(codes, BatchSize(kind), |replies|)|
  {
    var n := |replies| - 1;
    var init := replies[..n];
    assert Run(kind, g, codes, init).Some?;
    if k == n {
      RunAtMostBatches(kind, g, codes, init);
    } else {
      assert init[k] == replies[k];
      SkippedBatchCounted(kind, g, codes, init, k);
    }
  }

  /**
   * As written: a batch answered by an error, a rate-limit error included, leaves no record
   * behind, so the output misses at least that batch's items even when the run goes on.
   */
  lemma SkippedBatchAbsent(kind: Kind, g: Generator, codes: seq<HsCode>, replies: seq<Reply>, k: nat)
    requires |replies| == BatchCount(|codes|, BatchSize(kind))
    requires k < |replies| && !replies[k].Vectors?
    requires Run(kind, g, codes, replies).Some?
    ensures |Run(kind, g, codes, replies).value| + |Batch(codes, BatchSize(kind), k)| <= |codes|
    ensures |Run(kind, g, codes, replies).value| < |codes|
  {
    SkippedBatchCounted(kind, g, codes, replies, k);
    BatchesCover(codes, BatchSize(kind));
    BatchBounds(codes, BatchSize(kind), k);
  }

  /** A concrete instance: one HS code whose only request is rate-limited yields an empty output. */
  lemma RateLimitedCodeLost(g: Generator, code: HsCode)
    ensures Run(OpenAi, g, [code], [RateLimited]) == Some([])
  {
    assert [RateLimited][..0] == [];
  }

  /** `[self._get_embedding_text(item) for item in batch]` */
  method EmbeddingTexts(batch: seq<HsCode>) returns (texts: seq<string>)
    ensures |texts| == |batch| && forall j :: 0 <= j < |batch| ==> texts[j] == EmbeddingTextOf(batch[j])
  {
    texts := [];
    for i := 0 to |batch|
      invariant |texts| == i && forall j :: 0 <= j < i ==> texts[j] == EmbeddingTextOf(batch[j])
    {
      var t := EmbeddingText(batch[i]);
      texts := texts + [t];
    }
  }

  /** One batch: build the texts, then append a record per returned vector. */
  method EmbedBatch(kind: Kind, g: Generator, batch: seq<HsCode>, reply: Reply, out: seq<Record>)
    returns (r: Option<seq<Record>>)
    ensures r == BatchStep(kind, g, batch, reply, out)
  {
    var texts := EmbeddingTexts(batch);
    if reply.RateLimited? {
      return Some(out);
    }
    if reply.Failed? {
      if kind == OpenAi {
        return None;
      }
      return Some(out);
    }
    var vs := reply.vectors;
    var acc := out;
    var j := 0;
    while j < |vs|
      invariant j <= |vs| && j <= |batch|
      invariant acc == out + Embedded(g, batch, vs, j)
    {
      if j >= |batch| {
        // `batch[j]` raises IndexError
        if kind == OpenAi {
          return None;
        }
        return Some(acc);
      }
      assert Embedded(g, batch, vs, j + 1) == Embedded(g, batch, vs, j) + [Record(batch[j], vs[j], g.provider, g.model, texts[j])];
      acc := acc + [Record(batch[j], vs[j], g.provider, g.model, texts[j])];
      j := j + 1;
    }
    return Some(acc);
  }

  /**
   * `generate` of the three subclasses as written: one request per batch, `answers[k]` being
   * the answer to batch `k`; `None` when the script exits.
   */
  method Generate(kind: Kind, g: Generator, codes: seq<HsCode>, answers: seq<Reply>)
    returns (r: Option<seq<Record>>)
    requires |answers| == BatchCount(|codes|, BatchSize(kind))
    ensures r == Run(kind, g, codes, answers)
  {
    var size := BatchSize(kind);
    var total := BatchCount(|codes|, size);
    var out: seq<Record> := [];
    for k := 0 to total
      invariant Run(kind, g, codes, answers[..k]) == Some(out)
    {
      var step := EmbedBatch(kind, g, Batch(codes, size, k), answers[k], out);
      RunSnoc(kind, g, codes, answers, k);
      if step.None? {
        RunStaysAborted(kind, g, codes, answers, k + 1);
        return None;
      }
      out := step.value;
    }
    assert answers[..total] == answers;
    return Some(out);
  }

  // ---------------------------------------------------------------- retrying rate-limited batches

  /** The answers that are not rate-limit errors, in order. */
  function Answered(answers: seq<Reply>): (r: seq<Reply>)
    ensures |r| <= |answers|
    ensures forall i :: 0 <= i < |r| ==> !r[i].RateLimited?
  {
    if answers == [] then []
    else
      var k := |answers| - 1;
      Answered(answers[..k]) + (if answers[k].RateLimited? then [] else [answers[k]])
  }

  lemma AnsweredSnoc(answers: seq<Reply>, k: nat)
    requires k < |answers|
    ensures Answered(answers[..k + 1]) ==
      Answered(answers[..k]) + (if answers[k].RateLimited? then [] else [answers[k]])
  {
    assert answers[..k + 1][..k] == answers[..k];
  }

  lemma {:induction false} AnsweredAppend(a: seq<Reply>, b: seq<Reply>)
    ensures Answered(a + b) == Answered(a) + Answered(b)
    decreases |b|
  {
    if b == [] {
      assert a + b == a;
    } else {
      var k := |b| - 1;
      assert (a + b)[..|a + b| - 1] == a + b[..k];
      AnsweredAppend(a, b[..k]);
    }
  }

  /** The answers to the first `c` requests are the first answers of the whole run. */
  lemma AnsweredPrefix(answers: seq<Reply>, c: nat)
    requires c <= |answers|
    ensures var done := Answered(answers[..c]);
      |done| <= |Answered(answers)| && Answered(answers)[..|done|] == done
  {
    AnsweredAppend(answers[..c], answers[c..]);
    assert answers[..c] + answers[c..] == answers;
  }

  /** The retrying loop after `call` requests: `batchNum` batches done, the records so far `out`. */
  predicate Retried(g: Generator, codes: seq<HsCode>, answers: seq<Reply>, call: nat, batchNum: nat,
                    out: seq<Record>)
  {
    && call <= |answers|
    && |Answered(answers[..call])| == batchNum
    && Run(OpenAi, g, codes, Answered(answers[..call])) == Some(out)
  }

  /** A rate-limited request leaves the batch to do again. */
  lemma RetrySkip(g: Generator, codes: seq<HsCode>, answers: seq<Reply>, call: nat, batchNum: nat,
                  out: seq<Record>)
    requires Retried(g, codes, answers, call, batchNum, out)
    requires call < |answers| && answers[call].RateLimited?
    ensures Retried(g, codes, answers, call + 1, batchNum, out)
  {
    AnsweredSnoc(answers, call);
    assert Answered(answers[..call + 1]) == Answered(answers[..call]);
  }

  /** Any other answer runs the next batch. */
  lemma RetryStep(g: Generator, codes: seq<HsCode>, answers: seq<Reply>, call: nat, batchNum: nat,
                  out: seq<Record>, next: Option<seq<Record>>)
    requires Retried(g, codes, answers, call, batchNum, out)
    requires call < |answers| && !answers[call].RateLimited?
    requires next == BatchStep(OpenAi, g, Batch(codes, 100, batchNum), answers[call], out)
    ensures next.Some? ==> Retried(g, codes, answers, call + 1, batchNum + 1, next.value)
    ensures next.None? ==>
      |Answered(answers[..call + 1])| == batchNum + 1 &&
      Run(OpenAi, g, codes, Answered(answers[..call + 1])) == None
  {
    AnsweredSnoc(answers, call);
    var done := Answered(answers[..call + 1]);
    assert done[..batchNum] == Answered(answers[..call]) && done[batchNum] == answers[call];
    RunSnoc(OpenAi, g, codes, done, batchNum);
    assert done[..batchNum + 1] == done;
  }

  /** What the loop has done when it stops is the run over the first `total` answers. */
  lemma RetryEnd(g: Generator, codes: seq<HsCode>, answers: seq<Reply>, call: nat, batchNum: nat,
                 out: seq<Record>, total: nat)
    requires Retried(g, codes, answers, call, batchNum, out) && batchNum <= total
    requires call == |answers| || batchNum == total
    ensures Run(OpenAi, g, codes, Seqs.Prefix(Answered(answers), total)) == Some(out)
  {
    AnsweredPrefix(answers, call);
    if call == |answers| {
      assert answers[..call] == answers;
    }
    assert Seqs.Prefix(Answered(answers), total) == Answered(answers[..call]);
  }

  /** Exiting after some answers is exiting for the whole run. */
  lemma RetryAbort(g: Generator, codes: seq<HsCode>, answers: seq<Reply>, call: nat, total: nat)
    requires call <= |answers| && |Answered(answers[..call])| <= total
    requires Run(OpenAi, g, codes, Answered(answers[..call])) == None
    ensures Run(OpenAi, g, codes, Seqs.Prefix(Answered(answers), total)) == None
  {
    AnsweredPrefix(answers, call);
    var done := Answered(answers[..call]);
    var run := Seqs.Prefix(Answered(answers), total);
    assert run[..|done|] == done;
    RunStaysAborted(OpenAi, g, codes, run, |done|);
  }

  /**
   * `generate` of the OpenAI subclass as `batch_num -= 1` evidently intends: a rate-limited
   * batch is sent again, and every request consumes the next answer. The loop ends when every
   * batch is done or the answers run out.
   */
  method GenerateRetrying(g: Generator, codes: seq<HsCode>, answers: seq<Reply>)
    returns (r: Option<seq<Record>>)
    ensures r == Run(OpenAi, g, codes, Seqs.Prefix(Answered(answers), BatchCount(|codes|, 100)))
  {
    var total := BatchCount(|codes|, 100);
    var out: seq<Record> := [];
    var batchNum := 0;
    var call := 0;
    assert answers[..0] == [];
    while batchNum < total && call < |answers|
      invariant batchNum <= total
      invariant Retried(g, codes, answers, call, batchNum, out)
      decreases |answers| - call
    {
      var reply := answers[call];
      if reply.RateLimited? {
        // wait, then send the same batch again
        RetrySkip(g, codes, answers, call, batchNum, out);
        call := call + 1;
        continue;
      }
      var step := EmbedBatch(OpenAi, g, Batch(codes, 100, batchNum), reply, out);
      RetryStep(g, codes, answers, call, batchNum, out, step);
      call := call + 1;
      if step.None? {
        RetryAbort(g, codes, answers, call, total);
        return None;
      }
      out := step.value;
      batchNum := batchNum + 1;
    }
    RetryEnd(g, codes, answers, call, batchNum, out, total);
    return Some(out);
  }

  /**
   * With retrying, rate limits lose nothing: when the answers that are not rate-limit errors
   * cover every batch with one vector per text, the output holds every input item once, in
   * order, however many requests were rate-limited before.
   */
  lemma RetryKeepsEveryRecord(g: Generator, codes: seq<HsCode>, answers: seq<Reply>)
    requires |Answered(answers)| >= BatchCount(|codes|, 100)
    requires Complete(OpenAi, codes, Answered(answers)[..BatchCount(|codes|, 100)])
    ensures var r := Run(OpenAi, g, codes, Seqs.Prefix(Answered(answers), BatchCount(|codes|, 100)));
      && r.Some?
      && |r.value| == |codes|
      && forall i :: 0 <= i < |codes| ==> r.value[i].code == codes[i]
  {
    CompleteRun(OpenAi, g, codes, Answered(answers)[..BatchCount(|codes|, 100)]);
  }

  /** Under retrying, the single rate-limited code of `RateLimitedCodeLost` is kept. */
  lemma RetriedCodeKept(g: Generator, code: HsCode, v: Vector)
    ensures Run(OpenAi, g, [code], Seqs.Prefix(Answered([RateLimited, Vectors([v])]), BatchCount(1, 100)))
      == Some([Record(code, v, g.provider, g.model, EmbeddingTextOf(code))])
  {
    var answers := [RateLimited, Vectors([v])];
    var one := [Vectors([v])];
    assert answers[..1] == [RateLimited];
    assert answers[..1][..0] == [];
    assert Answered(answers) == one;
    assert BatchCount(1, 100) == 1;
    assert Seqs.Prefix(one, 1) == one;
    assert one[..0] == [];
    assert Run(OpenAi, g, [code], one[..0]) == Some([]);
    assert Batch([code], BatchSize(OpenAi), 0) == [code];
    assert !Fatal([code], one[0]);
    assert Run(OpenAi, g, [code], one) ==
      BatchStep(OpenAi, g, Batch([code], BatchSize(OpenAi), 0), one[0], []);
    assert Run(OpenAi, g, [code], one) == Some([] + Embedded(g, [code], [v], 1));
    var rec := Record(code, v, g.provider, g.model, EmbeddingTextOf(code));
    assert Embedded(g, [code], [v], 1) == [rec];
    assert [] + [rec] == [rec];
    assert Seqs.Prefix(Answered(answers), BatchCount(1, 100)) == one;
  }
}
