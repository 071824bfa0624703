/** Tensor payloads of a mapped file, and their reading as scalars. */
module ModelFile {
  import opened Prelude
  import opened Gguf
  import opened GgufCatalog
  import opened GgufFile
  import opened Qwen35Config
  import opened Qwen35Manifest
  import opened Scalars
  import Utf8
  import WireFormat
  import SpecWriter
  import WireTransfer

  /** The payload bytes of a descriptor, if it is one of the catalog's own and lies in the file. */
  function TensorPayload(catalog: Catalog, file: seq<byte>, t: TensorInfo): (r: Result<seq<byte>>)
    requires catalog.tensorDataOffset <= U64_MAX && t.offset <= U64_MAX && t.byteSize <= U64_MAX
  {
    var found := FindTensor(catalog.tensors, t.name);
    if found.None? || found.value.dimensions != t.dimensions || found.value.kind != t.kind
       || found.value.offset != t.offset || found.value.byteSize != t.byteSize then Err
    else
      var begin := CheckedAdd(catalog.tensorDataOffset, t.offset, U64_MAX);
      if begin.None? then Err
      else
        var end := CheckedAdd(begin.value, t.byteSize, U64_MAX);
        if end.None? || end.value > |file| then Err
        else Ok(file[begin.value..end.value])
  }

  /** In an accepted catalog every tensor's payload is found, at the place and of the size its
      descriptor says, and starts on the alignment. */
  lemma {:induction false} PayloadFound(catalog: Catalog, file: seq<byte>, limits: Limits, t: TensorInfo)
    requires WellFormedCatalog(catalog, |file|, limits) && |file| <= U64_MAX
    requires t in catalog.tensors
    ensures catalog.tensorDataOffset <= U64_MAX && t.offset <= U64_MAX && t.byteSize <= U64_MAX
    ensures Begin(catalog, t) % catalog.alignment == 0 && End(catalog, t) <= |file|
    ensures TensorPayload(catalog, file, t) == Ok(file[Begin(catalog, t)..End(catalog, t)])
    ensures t.byteSize == Product(t.dimensions) * ElementSize(t.kind)
  {
    hide Product, ElementSize, FindTensor, WellFormedCatalog, PayloadsSafe;
    CatalogTensor(catalog, |file|, limits, t);
    FindsItself(catalog, |file|, t);
    SumOfMultiples(catalog.tensorDataOffset, t.offset, catalog.alignment);
  }

  lemma CatalogTensor(catalog: Catalog, fileSize: nat, limits: Limits, t: TensorInfo)
    requires WellFormedCatalog(catalog, fileSize, limits) && t in catalog.tensors
    ensures PayloadsSafe(catalog, fileSize) && WellFormedTensor(t, limits.maxRank)
    ensures catalog.alignment > 0 && catalog.tensorDataOffset % catalog.alignment == 0
  {
    hide WellFormedTensor, ValidKey, WellFormedValue;
    var i :| 0 <= i < |catalog.tensors| && catalog.tensors[i] == t;
  }

  /** Names are unique, so looking a tensor up by name finds that very tensor. */
  lemma {:induction false} FindsItself(catalog: Catalog, fileSize: nat, t: TensorInfo)
    requires PayloadsSafe(catalog, fileSize) && t in catalog.tensors
    ensures FindTensor(catalog.tensors, t.name) == Some(t)
    ensures Begin(catalog, t) <= End(catalog, t) <= fileSize && t.offset % catalog.alignment == 0
  {
    var i :| 0 <= i < |catalog.tensors| && catalog.tensors[i] == t;
    var found := FindTensor(catalog.tensors, t.name).value;
    var j :| 0 <= j < |catalog.tensors| && catalog.tensors[j] == found;
    assert i == j;
  }

  lemma {:induction false} SumOfMultiples(a: nat, b: nat, m: nat)
    requires m > 0 && a % m == 0 && b % m == 0
    ensures (a + b) % m == 0
  {
    var p, q := a / m, b / m;
    assert a == m * p && b == m * q;
    assert a + b == m * (p + q);
    MultipleOf(m, p + q, a + b);
  }

  /** Payloads of different tensors share no byte of the file. */
  lemma {:induction false} PayloadsDisjoint(catalog: Catalog, fileSize: nat, limits: Limits, s: TensorInfo, t: TensorInfo, at: nat)
    requires WellFormedCatalog(catalog, fileSize, limits)
    requires s in catalog.tensors && t in catalog.tensors && s != t
    ensures !(Begin(catalog, s) <= at < End(catalog, s) && Begin(catalog, t) <= at < End(catalog, t))
  {
    hide WellFormedTensor, ValidKey, WellFormedValue;
    var i :| 0 <= i < |catalog.tensors| && catalog.tensors[i] == s;
    var j :| 0 <= j < |catalog.tensors| && catalog.tensors[j] == t;
    assert i != j;
  }

  // ----- reading a payload as floats -----

  /** A stored float is identified by its type and its bits. */
  function Stored(kind: nat, bits: nat): Scalar
  {
    Input(bits + Pow256(4) * kind)
  }

  function TensorF32(catalog: Catalog, file: seq<byte>, t: TensorInfo): (r: Result<seq<Scalar>>)
    requires catalog.tensorDataOffset <= U64_MAX && t.offset <= U64_MAX && t.byteSize <= U64_MAX
  {
    var payload := TensorPayload(catalog, file, t);
    var size := ElementSize(t.kind);
    if size == 0 || payload.Err? || |payload.value| % size != 0 then Err
    else Ok(seq(|payload.value| / size, i requires 0 <= i < |payload.value| / size =>
              ElementInside(|payload.value|, size, i);
              Stored(t.kind, FromLittleEndian(payload.value[i * size..i * size + size]))))
  }

  lemma {:induction false} ElementInside(n: nat, size: nat, i: nat)
    requires size > 0 && i < n / size
    ensures 0 <= i * size && i * size + size <= n
  {
    MulLe(i + 1, n / size, size);
    assert n == size * (n / size) + n % size;
  }

  /** A tensor of an accepted catalog reads as exactly as many floats as its shape has cells. */
  lemma {:induction false} FloatsOfTensor(catalog: Catalog, file: seq<byte>, limits: Limits, t: TensorInfo)
    requires WellFormedCatalog(catalog, |file|, limits) && |file| <= U64_MAX
    requires t in catalog.tensors
    ensures catalog.tensorDataOffset <= U64_MAX && t.offset <= U64_MAX && t.byteSize <= U64_MAX
    ensures TensorF32(catalog, file, t).Ok? && |TensorF32(catalog, file, t).value| == Product(t.dimensions)
  {
    hide Product, WellFormedCatalog, TensorPayload, ElementSize, FromLittleEndian, Stored;
    PayloadFound(catalog, file, limits, t);
    KindSupported(catalog, |file|, limits, t);
    ExactQuotient(Product(t.dimensions), ElementSize(t.kind));
  }

  lemma {:induction false} KindSupported(catalog: Catalog, fileSize: nat, limits: Limits, t: TensorInfo)
    requires WellFormedCatalog(catalog, fileSize, limits) && t in catalog.tensors
    ensures ElementSize(t.kind) > 0
  {
    hide ElementSize, Product, PayloadsSafe, ValidKey, WellFormedValue;
    var i :| 0 <= i < |catalog.tensors| && catalog.tensors[i] == t;
    assert WellFormedTensor(catalog.tensors[i], limits.maxRank);
  }

  lemma {:induction false} ExactQuotient(n: nat, size: nat)
    requires size > 0
    ensures (n * size) % size == 0 && (n * size) / size == n
  {
    MultipleOf(size, n, n * size);
    assert n * size == size * ((n * size) / size);
    SameFactor(size, n, (n * size) / size);
  }

  lemma {:induction false} SameFactor(size: nat, a: nat, b: nat)
    requires size > 0 && size * a == size * b
    ensures a == b
  {
  }

  // ----- loading -----

  datatype Model = Model(file: seq<byte>, catalog: Catalog, config: Config, manifest: Manifest, tokenizerSpec: seq<byte>)

  /** What the accepted stages of loading establish together. */
  ghost predicate LoadedModel(m: Model) {
    && |m.file| <= I64_MAX
    && WellFormedCatalog(m.catalog, |m.file|, DEFAULT_LIMITS)
    && ValidConfig(m.config)
    && m.config.vocabularySize <= DEFAULT_LIMITS.maxArrayElements
    && SomeFull(m.config.blocks)
    && LocatedManifest(m.catalog, m.config, m.manifest)
  }

  /** A file of the format whose metadata describes a configuration and whose tensors it needs. */
  ghost predicate Loadable(file: seq<byte>, narrow: nat -> nat, entries: seq<Entry>, catalog: Catalog, manifest: Manifest)
    requires |file| <= U64_MAX
  {
    && IsFileOf(file, DEFAULT_LIMITS, entries, catalog)
    && Derivable(catalog.metadata, narrow)
    && LocatedManifest(catalog, ConfigOf(catalog.metadata, narrow), manifest)
  }

  /** The specification handed to the runtime prints the tokenizer part of the metadata. */
  ghost predicate CarriesTokenizer(m: Model) {
    var written := SpecWriter.Selection(m.catalog.metadata);
    |written| > 0 && WireFormat.AllRepresentable(written) && m.tokenizerSpec == WireFormat.PrintSpec(written)
  }

  /** Loads exactly the files that pass catalog, configuration and manifest; serializing the
      tokenizer never fails after that. A file's size is a signed 64-bit `off_t`. */
  method LoadModel(file: seq<byte>, narrow: nat -> nat) returns (r: Result<Model>)
    requires |file| <= I64_MAX
    ensures r.Ok? ==> LoadedModel(r.value) && r.value.file == file && CarriesTokenizer(r.value)
    ensures r.Ok? ==> (exists entries :: Loadable(file, narrow, entries, r.value.catalog, r.value.manifest))
                      && r.value.config == ConfigOf(r.value.catalog.metadata, narrow)
    ensures r.Err? ==> forall es, c, m :: !Loadable(file, narrow, es, c, m)
  {
    hide ValidConfig, LocatedManifest, ReadFields, IsFileOf, Derivable, ConfigOf, SomeFull, WellFormedCatalog,
         SpecWriter.Serializable, WireFormat.PrintSpec;
    var catalog, entries := ReadCatalog(file, DEFAULT_LIMITS);
    if catalog.Err? {
      return Err;
    }
    OneCatalog(file, narrow, entries, catalog.value);
    CatalogFits(catalog.value, |file|);
    var config := DeriveConfig(catalog.value.metadata, narrow, DEFAULT_LIMITS);
    if config.Err? {
      return Err;
    }
    ConfigFits(catalog.value.metadata, narrow, config.value);
    var manifest := ValidateManifest(catalog.value, config.value);
    if manifest.Err? {
      return Err;
    }
    SpecWritten(catalog.value, |file|, narrow);
    var spec := SpecWriter.SerializeTokenizerSpec(catalog.value.metadata);
    if spec.Err? {
      return Err;
    }
    assert Loadable(file, narrow, entries, catalog.value, manifest.value);
    r := Ok(Model(file, catalog.value, config.value, manifest.value, spec.value));
  }

  /** Whatever could be loaded from a file has its one catalog. */
  lemma OneCatalog(file: seq<byte>, narrow: nat -> nat, entries: seq<Entry>, catalog: Catalog)
    requires |file| <= U64_MAX && IsFileOf(file, DEFAULT_LIMITS, entries, catalog)
    ensures forall es, c, m :: Loadable(file, narrow, es, c, m) ==> c == catalog
  {
    hide IsFileOf, Derivable, ConfigOf, LocatedManifest;
    forall es, c, m | Loadable(file, narrow, es, c, m)
      ensures c == catalog
    {
      FileUnique(file, DEFAULT_LIMITS, es, c, entries, catalog);
    }
  }

  lemma CatalogFits(catalog: Catalog, fileSize: nat)
    requires WellFormedCatalog(catalog, fileSize, DEFAULT_LIMITS)
    ensures MetadataFits(catalog.metadata, DEFAULT_LIMITS) && UniqueNames(catalog)
    ensures forall key :: key in catalog.metadata ==> SpecWriter.Typed(catalog.metadata[key])
  {
    hide WellFormedTensor, WellFormedValue, ValidKey;
    forall key | key in catalog.metadata
      ensures SpecWriter.Typed(catalog.metadata[key])
    {
      WireTransfer.CatalogValue(catalog.metadata[key]);
    }
  }

  lemma ConfigFits(metadata: Metadata, narrow: nat -> nat, c: Config)
    requires MetadataFits(metadata, DEFAULT_LIMITS) && Derivable(metadata, narrow) && c == ConfigOf(metadata, narrow) && ValidConfig(c)
    ensures InOrder(c.blocks) && SomeFull(c.blocks) && c.vocabularySize <= DEFAULT_LIMITS.maxArrayElements
  {
    hide ReadFields, MetadataFits;
    var raw := ReadFields(metadata, narrow).value.1;
    PlanHasFull(c.blocks, raw.totalBlocks - raw.nextn, raw.interval);
    VocabularyBound(metadata, narrow, DEFAULT_LIMITS);
  }

  /** A configured catalog has a tokenizer key, so its tokenizer part can be written. */
  lemma SpecWritten(catalog: Catalog, fileSize: nat, narrow: nat -> nat)
    requires WellFormedCatalog(catalog, fileSize, DEFAULT_LIMITS) && Derivable(catalog.metadata, narrow)
    ensures |SpecWriter.Selection(catalog.metadata)| > 0 && SpecWriter.Serializable(SpecWriter.Selection(catalog.metadata))
  {
    hide WellFormedCatalog, SpecWriter.Selected, SpecWriter.Serializable;
    var written := SpecWriter.Selection(catalog.metadata);
    var key := Ascii("tokenizer.ggml.tokens");
    TokensPresent(catalog.metadata, narrow);
    TokenizerKey("tokenizer.ggml.tokens");
    assert Entry(key, catalog.metadata[key]) in written;
    WireTransfer.NeverFailsToWrite(catalog, fileSize, written);
  }

  lemma TokensPresent(metadata: Metadata, narrow: nat -> nat)
    requires Derivable(metadata, narrow)
    ensures Ascii("tokenizer.ggml.tokens") in metadata
  {
    hide FieldsAgree, TypesAgree, Ascii, RequireU32, OptionalU32, RequireFloat, IsString;
  }

  lemma TokenizerKey(key: string)
    requires |key| >= 10 && key[..10] == "tokenizer."
    ensures SpecWriter.Selected(Ascii(key))
  {
    hide Utf8.Encode, Ascii;
    AsciiEncodes("tokenizer.");
    AsciiPrefix(key, 10);
  }

  lemma AsciiPrefix(s: string, n: nat)
    requires n <= |s|
    ensures Ascii(s[..n]) <= Ascii(s)
  {
  }

  lemma {:induction false} AsciiEncodes(s: string)
    requires Utf8.IsAscii(s)
    ensures Utf8.Encode(s) == Ascii(s)
  {
    if |s| > 0 {
      AsciiEncodes(s[1..]);
      assert Ascii(s) == [s[0] as int] + Ascii(s[1..]);
    }
  }

  lemma {:induction false} VocabularyBound(metadata: Metadata, narrow: nat -> nat, limits: Limits)
    requires MetadataFits(metadata, limits) && ReadFields(metadata, narrow).Ok?
    ensures ReadFields(metadata, narrow).value.0.vocabularySize <= limits.maxArrayElements
  {
    hide Ascii, RequireU32, OptionalU32, RequireFloat;
  }
}
