/** Inputs on which a promise fails, and the tables they are read from. */
module Witnesses {
  import opened Prelude
  import opened Gguf
  import opened Qwen35Config
  import opened GgufParse
  import opened GgufRoundTrip
  import opened GgufCatalog
  import opened GgufFile
  import opened ModelFile
  import opened ShapeSafety
  import opened LoadedWitness
  import opened Tokenizer
  import opened TokenizerBuilder
  import opened TokenizerRoundTrip
  import SpecMetadata
  import WireFormat
  import SpecWriter
  import WireTransfer

  // ----- metadata from a table -----

  function Table(keys: seq<string>, values: seq<MetadataValue>): (m: Metadata)
    requires |keys| == |values|
  {
    if |keys| == 0 then map[]
    else Table(keys[..|keys| - 1], values[..|values| - 1])[Ascii(keys[|keys| - 1]) := values[|values| - 1]]
  }

  /** Length and two characters tell two keys apart. */
  predicate Apart(s: string, t: string) {
    |s| != |t| || (|s| > 17 && (Differs(s[11], t[11]) || Differs(s[17], t[17])))
  }

  predicate Differs(c: char, d: char) { c as int % 128 != d as int % 128 }

  lemma ApartBytes(s: string, t: string)
    requires Apart(s, t)
    ensures Ascii(s) != Ascii(t)
  {
    if |s| == |t| {
      assert Ascii(s)[11] != Ascii(t)[11] || Ascii(s)[17] != Ascii(t)[17];
    }
  }

  lemma {:induction false} TableHas(keys: seq<string>, values: seq<MetadataValue>, i: nat)
    requires |keys| == |values| && i < |keys|
    requires forall a, b :: 0 <= a < b < |keys| ==> Apart(keys[a], keys[b])
    ensures Ascii(keys[i]) in Table(keys, values) && Table(keys, values)[Ascii(keys[i])] == values[i]
  {
    hide Ascii, Apart;
    var last := |keys| - 1;
    if i < last {
      ApartBytes(keys[i], keys[last]);
      TableHas(keys[..last], values[..last], i);
    }
  }

  lemma {:induction false} TableLacks(keys: seq<string>, values: seq<MetadataValue>, key: string)
    requires |keys| == |values| && forall a :: 0 <= a < |keys| ==> Apart(keys[a], key)
    ensures Ascii(key) !in Table(keys, values)
  {
    hide Ascii, Apart;
    if |keys| > 0 {
      var last := |keys| - 1;
      ApartBytes(keys[last], key);
      TableLacks(keys[..last], values[..last], key);
    }
  }

  // ----- an accepted configuration whose mixers disagree -----

  const KEYS: seq<string> := [
    "general.architecture", "tokenizer.ggml.tokens",
    "qwen35.embedding_length", "qwen35.feed_forward_length", "qwen35.context_length", "qwen35.block_count",
    "qwen35.attention.head_count", "qwen35.attention.head_count_kv",
    "qwen35.attention.key_length", "qwen35.attention.value_length",
    "qwen35.attention.layer_norm_rms_epsilon", "qwen35.rope.freq_base", "qwen35.rope.dimension_count",
    "qwen35.ssm.conv_kernel", "qwen35.ssm.state_size", "qwen35.ssm.group_count",
    "qwen35.ssm.time_step_rank", "qwen35.ssm.inner_size", "qwen35.full_attention_interval"]

  /** Hidden size 2 as one head of length 2; inner size 1; two blocks, the second attending fully. */
  const VALUES: seq<MetadataValue> := [
    Str(Ascii("qwen35")), Arr(TString, [Str([0x61])]),
    U32(2), U32(1), U32(1), U32(2),
    U32(1), U32(1),
    U32(2), U32(2),
    F32(ONE_FLOAT), F32(ONE_FLOAT), U32(2),
    U32(1), U32(1), U32(1),
    U32(1), U32(1), U32(2)]

  const META: Metadata := Table(KEYS, VALUES)

  lemma KeysApart(a: nat, b: nat)
    requires a < b < |KEYS|
    ensures Apart(KEYS[a], KEYS[b])
  {
  }

  lemma KeysLack(a: nat)
    requires a < |KEYS|
    ensures Apart(KEYS[a], "qwen35.nextn_predict_layers") && Apart(KEYS[a], "qwen35.layer_types")
  {
  }

  lemma MetaAt(i: nat)
    requires i < |KEYS|
    ensures |VALUES| == |KEYS| && Ascii(KEYS[i]) in META && META[Ascii(KEYS[i])] == VALUES[i]
  {
    hide Apart, KEYS, Ascii, Table;
    KeyCount();
    forall a, b | 0 <= a < b < |KEYS|
      ensures Apart(KEYS[a], KEYS[b])
    {
      KeysApart(a, b);
    }
    TableHas(KEYS, VALUES, i);
  }

  lemma KeyCount()
    ensures |KEYS| == |VALUES| == 19
  {
  }

  lemma MetaU32(i: nat, key: string, n: nat)
    requires i < 19 && KEYS[i] == key && VALUES[i] == U32(n)
    ensures RequireU32(META, key) == Ok(n)
  {
    hide KEYS, VALUES, META, Ascii;
    KeyCount();
    MetaAt(i);
  }

  lemma MetaLacks(key: string)
    requires key in {"qwen35.nextn_predict_layers", "qwen35.layer_types"}
    ensures Ascii(key) !in META
  {
    hide Apart, KEYS, Ascii, Table;
    KeyCount();
    forall a | 0 <= a < |KEYS|
      ensures Apart(KEYS[a], key)
    {
      KeysLack(a);
    }
    TableLacks(KEYS, VALUES, key);
  }

  const RAW: Raw := Raw(2, 0, 2, 2, 1, 1, 2)

  const FIELDS: Config := Config(1, 2, 1, 1, 1, 1, 2, 1, 0, 1, 1, 2, ONE_FLOAT, ONE_FLOAT, [])

  lemma MetaShapes()
    ensures RequireU32(META, "qwen35.embedding_length") == Ok(2) && RequireU32(META, "qwen35.feed_forward_length") == Ok(1)
    ensures RequireU32(META, "qwen35.context_length") == Ok(1) && RequireU32(META, "qwen35.block_count") == Ok(2)
    ensures RequireU32(META, "qwen35.attention.head_count") == Ok(1) && RequireU32(META, "qwen35.attention.head_count_kv") == Ok(1)
    ensures RequireU32(META, "qwen35.attention.key_length") == Ok(2) && RequireU32(META, "qwen35.attention.value_length") == Ok(2)
    ensures RequireU32(META, "qwen35.rope.dimension_count") == Ok(2)
  {
    hide META, Ascii;
    MetaU32(2, "qwen35.embedding_length", 2);
    MetaU32(3, "qwen35.feed_forward_length", 1);
    MetaU32(4, "qwen35.context_length", 1);
    MetaU32(5, "qwen35.block_count", 2);
    MetaU32(6, "qwen35.attention.head_count", 1);
    MetaU32(7, "qwen35.attention.head_count_kv", 1);
    MetaU32(8, "qwen35.attention.key_length", 2);
    MetaU32(9, "qwen35.attention.value_length", 2);
    MetaU32(12, "qwen35.rope.dimension_count", 2);
  }

  lemma MetaLinear()
    ensures RequireU32(META, "qwen35.ssm.conv_kernel") == Ok(1) && RequireU32(META, "qwen35.ssm.state_size") == Ok(1)
    ensures RequireU32(META, "qwen35.ssm.group_count") == Ok(1) && RequireU32(META, "qwen35.ssm.time_step_rank") == Ok(1)
    ensures RequireU32(META, "qwen35.ssm.inner_size") == Ok(1) && RequireU32(META, "qwen35.full_attention_interval") == Ok(2)
  {
    hide META, Ascii;
    MetaU32(13, "qwen35.ssm.conv_kernel", 1);
    MetaU32(14, "qwen35.ssm.state_size", 1);
    MetaU32(15, "qwen35.ssm.group_count", 1);
    MetaU32(16, "qwen35.ssm.time_step_rank", 1);
    MetaU32(17, "qwen35.ssm.inner_size", 1);
    MetaU32(18, "qwen35.full_attention_interval", 2);
  }

  lemma MetaRest(narrow: nat -> nat)
    ensures IsString(META, "general.architecture", "qwen35") && Vocabulary(META) == Ok(1)
    ensures RequireFloat(META, "qwen35.attention.layer_norm_rms_epsilon", narrow) == Ok(ONE_FLOAT)
    ensures RequireFloat(META, "qwen35.rope.freq_base", narrow) == Ok(ONE_FLOAT)
    ensures OptionalU32(META, "qwen35.nextn_predict_layers", 0) == Ok(0)
    ensures LayerTypes(META, 2) == Ok(None)
  {
    hide META, Ascii;
    MetaAt(0);
    MetaAt(1);
    MetaAt(10);
    MetaAt(11);
    MetaLacks("qwen35.nextn_predict_layers");
    MetaLacks("qwen35.layer_types");
  }

  /** Metadata that derives a configuration whose linear layer has inner size 1 beside hidden size 2. */
  lemma MetaDerives(narrow: nat -> nat)
    ensures Derivable(META, narrow)
    ensures ConfigOf(META, narrow) == Small(1) && !MixersAgree(ConfigOf(META, narrow))
  {
    hide META, Ascii, IsString, RequireU32, RequireFloat, OptionalU32, Vocabulary, LayerTypes;
    MetaShapes();
    MetaLinear();
    MetaRest(narrow);
    assert ReadFields(META, narrow) == Ok((FIELDS, RAW));
    var blocks := ConfigOf(META, narrow).blocks;
    assert blocks[0] == BlockPlan(0, LinearAttention) && blocks[1] == BlockPlan(1, FullAttention);
    assert blocks == Small(1).blocks;
  }

  // ----- an accepted file whose tokenizer text the runtime refuses -----

  const TEXT_KEY: seq<byte> := Ascii("tokenizer.a")

  /** A text that is not UTF-8. */
  const BAD_TEXT: Entry := Entry(TEXT_KEY, Str([0xFF]))

  ghost function BadHeader(): seq<byte> {
    EncodeHeader([BAD_TEXT], [], DEFAULT_LIMITS)
  }

  ghost function BadFile(): seq<byte> {
    BadHeader() + seq(32, _ => 0)
  }

  const BAD_CATALOG: Catalog := Catalog(32, 64, map[TEXT_KEY := Str([0xFF])], [])

  lemma TextKeyValid()
    ensures |TEXT_KEY| == 11 && ValidKey(TEXT_KEY)
  {
    forall i | 0 <= i < 11
      ensures ValidKeyByte(TEXT_KEY, i)
    {
      assert TEXT_KEY[i] == "tokenizer.a"[i] as int;
    }
  }

  lemma BadHeaderLength()
    ensures WellFormedEntries([BAD_TEXT], DEFAULT_LIMITS) && |BadHeader()| == 56
  {
    hide LittleEndian, Ascii;
    TextKeyValid();
    assert [BAD_TEXT][1..] == [];
    assert EncodeEntries([BAD_TEXT], DEFAULT_LIMITS) == EncodeEntry(BAD_TEXT, DEFAULT_LIMITS) + EncodeEntries([], DEFAULT_LIMITS);
  }

  lemma BadFileAccepted()
    ensures |BadFile()| <= U64_MAX && IsFileOf(BadFile(), DEFAULT_LIMITS, [BAD_TEXT], BAD_CATALOG)
  {
    hide EncodeHeader, LittleEndian, Ascii, AlignUp;
    BadHeaderLength();
    TextKeyValid();
    BadPlacement();
    assert [BAD_TEXT][1..] == [] && [BAD_TEXT][..0] == [];
    assert MapOf([BAD_TEXT]) == map[TEXT_KEY := Str([0xFF])];
    assert EntriesCharge([BAD_TEXT], DEFAULT_LIMITS) == 12;
    assert GoodEntries([BAD_TEXT], DEFAULT_LIMITS);
    assert GoodTensors([], DEFAULT_LIMITS);
    assert IsHeaderOf(BadFile(), DEFAULT_LIMITS, [BAD_TEXT], []);
    assert CatalogAlignment(BAD_CATALOG.metadata) == Ok(32);
    assert PayloadsSafe(BAD_CATALOG, |BadFile()|);
  }

  lemma BadPlacement()
    ensures AlignUp(56, 32) == Some(64)
  {
  }

  /** The file loads as a catalog, its tokenizer part is written, and the runtime refuses it. */
  lemma BadTextRefused()
    ensures |BadFile()| <= U64_MAX && IsFileOf(BadFile(), DEFAULT_LIMITS, [BAD_TEXT], BAD_CATALOG)
    ensures !WireTransfer.TokenizerTextsUtf8(BAD_CATALOG)
    ensures
      var written := SpecWriter.Selection(BAD_CATALOG.metadata);
      && SpecWriter.Serializable(written) && WireFormat.AllRepresentable(written)
      && WireFormat.ParseSpec(WireFormat.PrintSpec(written)) == None
  {
    hide Ascii, IsFileOf, WellFormedCatalog, SpecWriter.Selected, WireFormat.ParseSpec, WireFormat.PrintSpec, SpecWriter.Serializable;
    BadFileAccepted();
    FileWellFormed(BadFile(), DEFAULT_LIMITS, [BAD_TEXT], BAD_CATALOG);
    TokenizerKey("tokenizer.a");
    var written := SpecWriter.Selection(BAD_CATALOG.metadata);
    assert BAD_TEXT in written;
    assert !WireTransfer.TextsUtf8(BAD_CATALOG.metadata[TEXT_KEY]);
    WireTransfer.TransferAccepted(BAD_CATALOG, |BadFile()|, written);
  }

  // ----- a specification that builds the clashing tokenizer -----

  const CLASHING_SPEC: SpecMetadata.Metadata := map[
    SpecMetadata.MODEL := SpecMetadata.VString("gpt2"), SpecMetadata.PRE := SpecMetadata.VString("qwen2"),
    SpecMetadata.TEMPLATE := SpecMetadata.VString("{}"),
    SpecMetadata.TOKENS := SpecMetadata.VStringArray([A_TILDE, COPYRIGHT, PAIR]),
    SpecMetadata.TOKEN_TYPE := SpecMetadata.VI32Array([TYPE_NORMAL, TYPE_NORMAL, TYPE_USER_DEFINED]),
    SpecMetadata.MERGES := SpecMetadata.VStringArray([A_TILDE + " " + COPYRIGHT])]

  lemma SpecHeader(templateSupported: string -> bool)
    requires templateSupported("{}")
    ensures HeaderAccepted(CLASHING_SPEC, templateSupported)
  {
  }

  lemma SpecLists()
    ensures SpecMetadata.RequiredStringArray(CLASHING_SPEC, SpecMetadata.TOKENS) == Ok([A_TILDE, COPYRIGHT, PAIR])
    ensures SpecMetadata.OptionalI32Array(CLASHING_SPEC, SpecMetadata.TOKEN_TYPE) == Ok(Some([TYPE_NORMAL, TYPE_NORMAL, TYPE_USER_DEFINED]))
    ensures SpecMetadata.RequiredStringArray(CLASHING_SPEC, SpecMetadata.MERGES) == Ok([A_TILDE + " " + COPYRIGHT])
  {
    assert SpecMetadata.TOKENS[15] != SpecMetadata.MERGES[15];
  }

  lemma SpecAbsent()
    ensures SpecMetadata.BOS !in CLASHING_SPEC && SpecMetadata.EOS !in CLASHING_SPEC && SpecMetadata.EOT !in CLASHING_SPEC
    ensures SpecMetadata.PADDING !in CLASHING_SPEC
    ensures SpecMetadata.ADD_BOS !in CLASHING_SPEC && SpecMetadata.ADD_EOS !in CLASHING_SPEC
  {
  }

  lemma SpecMerge()
    ensures SplitMerge(A_TILDE + " " + COPYRIGHT) == Some((A_TILDE, COPYRIGHT))
  {
    SplitComplete(A_TILDE + " " + COPYRIGHT, A_TILDE, COPYRIGHT);
  }

  /** The tokenizer that fails to give a text back is what this specification builds. */
  lemma ClashingBuilt(templateSupported: string -> bool)
    requires templateSupported("{}")
    ensures Accepted(CLASHING_SPEC, templateSupported)
    ensures Valid(CLASHING) && Built(CLASHING_SPEC, CLASHING)
  {
    hide CLASHING_SPEC, HeaderAccepted, SplitMerge, Valid;
    SpecHeader(templateSupported);
    SpecLists();
    SpecAbsent();
    SpecMerge();
    ClashingValid();
  }
}
