/** Which metadata key every field of a configuration comes from, said once more without the
    derivation: a configuration is what the metadata describes, field by field. */
module Qwen35Fields {
  import opened Prelude
  import opened Gguf
  import opened Qwen35Config

  /** The key holds that number, in 32 bits or in 64. */
  ghost predicate Keeps(metadata: Metadata, key: string, n: nat) {
    && Ascii(key) in metadata
    && (metadata[Ascii(key)] == U32(n) || (metadata[Ascii(key)] == U64(n) && n < 0x1_0000_0000))
  }

  /** The key holds those float bits, or a finite double of float range that casts to them. */
  ghost predicate KeepsFloat(metadata: Metadata, key: string, narrow: nat -> nat, bits: nat) {
    && Ascii(key) in metadata
    && match metadata[Ascii(key)]
       case F32(b) => b == bits
       case F64(b) => b % 0x8000_0000_0000_0000 <= 0x47EF_FFFF_E000_0000 && bits == narrow(b)
       case _ => false
  }

  ghost predicate KeepsStrings(metadata: Metadata, key: string, n: nat) {
    Ascii(key) in metadata && metadata[Ascii(key)].Arr? && metadata[Ascii(key)].elementType.TString?
    && |metadata[Ascii(key)].values| == n
  }

  ghost predicate DescribesSizes(metadata: Metadata, narrow: nat -> nat, c: Config) {
    && c.hiddenSize > 0 && Keeps(metadata, "qwen35.embedding_length", c.hiddenSize)
    && c.intermediateSize > 0 && Keeps(metadata, "qwen35.feed_forward_length", c.intermediateSize)
    && c.contextLength > 0 && Keeps(metadata, "qwen35.context_length", c.contextLength)
    && 0 < c.vocabularySize < 0x1_0000_0000 && KeepsStrings(metadata, "tokenizer.ggml.tokens", c.vocabularySize)
    && KeepsFloat(metadata, "qwen35.attention.layer_norm_rms_epsilon", narrow, c.epsilon)
    && KeepsFloat(metadata, "qwen35.rope.freq_base", narrow, c.ropeBase)
    && 0 < c.epsilon < 0x7F80_0000 && 0 < c.ropeBase < 0x7F80_0000
  }

  /** One length serves keys and values, the heads fill the hidden size, and each key/value head
      serves a whole number of query heads. */
  ghost predicate DescribesFull(metadata: Metadata, c: Config) {
    && c.fullHeads > 0 && Keeps(metadata, "qwen35.attention.head_count", c.fullHeads)
    && c.fullKvHeads > 0 && Keeps(metadata, "qwen35.attention.head_count_kv", c.fullKvHeads)
    && c.fullHeadDim > 0 && Keeps(metadata, "qwen35.attention.key_length", c.fullHeadDim)
    && Keeps(metadata, "qwen35.attention.value_length", c.fullHeadDim)
    && c.fullHeads * c.fullHeadDim == c.hiddenSize && c.fullHeads % c.fullKvHeads == 0
    && 0 < c.rotaryDim <= c.fullHeadDim && c.rotaryDim % 2 == 0
    && Keeps(metadata, "qwen35.rope.dimension_count", c.rotaryDim)
  }

  /** The value heads are kept twice: as the time-step rank, and times the head size as the inner size. */
  ghost predicate DescribesLinear(metadata: Metadata, c: Config) {
    && c.convolutionWidth > 0 && Keeps(metadata, "qwen35.ssm.conv_kernel", c.convolutionWidth)
    && c.linearHeadDim > 0 && Keeps(metadata, "qwen35.ssm.state_size", c.linearHeadDim)
    && c.linearKeyHeads > 0 && Keeps(metadata, "qwen35.ssm.group_count", c.linearKeyHeads)
    && c.linearValueHeads > 0 && Keeps(metadata, "qwen35.ssm.time_step_rank", c.linearValueHeads)
    && Keeps(metadata, "qwen35.ssm.inner_size", c.linearValueHeads * c.linearHeadDim)
    && c.linearKeyHeads <= c.linearValueHeads && c.linearValueHeads % c.linearKeyHeads == 0
  }

  /** The blocks without the prediction layers, in whole intervals each ending in full attention;
      a list of layer types is absent or says the same. */
  ghost predicate DescribesBlocks(metadata: Metadata, blocks: seq<BlockPlan>, total: nat, interval: nat) {
    && Keeps(metadata, "qwen35.block_count", total)
    && |blocks| <= total
    && (if Ascii("qwen35.nextn_predict_layers") in metadata
        then Keeps(metadata, "qwen35.nextn_predict_layers", total - |blocks|) else |blocks| == total)
    && interval > 0 && Keeps(metadata, "qwen35.full_attention_interval", interval)
    && |blocks| > 0 && |blocks| % interval == 0
    && (forall b :: 0 <= b < |blocks| ==>
          blocks[b].index == b && (blocks[b].kind.FullAttention? <==> (b + 1) % interval == 0))
    && (Ascii("qwen35.layer_types") in metadata ==>
          KeepsStrings(metadata, "qwen35.layer_types", |blocks|)
          && forall b :: 0 <= b < |blocks| ==>
               metadata[Ascii("qwen35.layer_types")].values[b]
               == Str(Ascii(if blocks[b].kind.FullAttention? then "full_attention" else "linear_attention")))
  }

  ghost predicate Describes(metadata: Metadata, narrow: nat -> nat, c: Config, total: nat, interval: nat) {
    && Ascii("general.architecture") in metadata
    && metadata[Ascii("general.architecture")] == Str(Ascii("qwen35"))
    && DescribesSizes(metadata, narrow, c) && DescribesFull(metadata, c) && DescribesLinear(metadata, c)
    && DescribesBlocks(metadata, c.blocks, total, interval)
  }

  // ----- the derivation gives that configuration -----

  lemma {:induction false} U32Kept(metadata: Metadata, key: string, n: nat)
    ensures RequireU32(metadata, key) == Ok(n) <==> Keeps(metadata, key, n)
  {
  }

  lemma {:induction false} FloatKept(metadata: Metadata, key: string, narrow: nat -> nat, bits: nat)
    ensures RequireFloat(metadata, key, narrow) == Ok(bits) <==> KeepsFloat(metadata, key, narrow, bits)
  {
  }

  lemma {:induction false} VocabularyKept(metadata: Metadata, n: nat)
    ensures Vocabulary(metadata) == Ok(n) <==> 0 < n < 0x1_0000_0000 && KeepsStrings(metadata, "tokenizer.ggml.tokens", n)
  {
  }

  /** What the derivation reads, in the form of the fields it reads it into. */
  ghost predicate Read(metadata: Metadata, narrow: nat -> nat, c: Config, raw: Raw) {
    && IsString(metadata, "general.architecture", "qwen35")
    && RequireU32(metadata, "qwen35.embedding_length") == Ok(c.hiddenSize)
    && RequireU32(metadata, "qwen35.feed_forward_length") == Ok(c.intermediateSize)
    && RequireU32(metadata, "qwen35.context_length") == Ok(c.contextLength)
    && RequireU32(metadata, "qwen35.block_count") == Ok(raw.totalBlocks)
    && OptionalU32(metadata, "qwen35.nextn_predict_layers", 0) == Ok(raw.nextn)
    && RequireU32(metadata, "qwen35.attention.head_count") == Ok(c.fullHeads)
    && RequireU32(metadata, "qwen35.attention.head_count_kv") == Ok(c.fullKvHeads)
    && RequireU32(metadata, "qwen35.attention.key_length") == Ok(c.fullHeadDim)
    && raw.keyLength == c.fullHeadDim
    && RequireU32(metadata, "qwen35.attention.value_length") == Ok(raw.valueLength)
    && RequireFloat(metadata, "qwen35.attention.layer_norm_rms_epsilon", narrow) == Ok(c.epsilon)
    && RequireFloat(metadata, "qwen35.rope.freq_base", narrow) == Ok(c.ropeBase)
    && RequireU32(metadata, "qwen35.rope.dimension_count") == Ok(c.rotaryDim)
    && RequireU32(metadata, "qwen35.ssm.conv_kernel") == Ok(c.convolutionWidth)
    && RequireU32(metadata, "qwen35.ssm.state_size") == Ok(c.linearHeadDim)
    && RequireU32(metadata, "qwen35.ssm.group_count") == Ok(c.linearKeyHeads)
    && RequireU32(metadata, "qwen35.ssm.time_step_rank") == Ok(raw.timeStepRank)
    && RequireU32(metadata, "qwen35.ssm.inner_size") == Ok(raw.innerSize)
    && RequireU32(metadata, "qwen35.full_attention_interval") == Ok(raw.interval)
    && Vocabulary(metadata) == Ok(c.vocabularySize)
  }

  lemma {:induction false} FieldsRead(metadata: Metadata, narrow: nat -> nat, c: Config, raw: Raw)
    ensures ReadFields(metadata, narrow) == Ok((c, raw)) <==> Read(metadata, narrow, c, raw) && c.linearValueHeads == 0 && c.blocks == []
  {
    hide RequireU32, OptionalU32, RequireFloat, Vocabulary, IsString, Ascii;
  }

  lemma {:induction false} SizesKept(metadata: Metadata, narrow: nat -> nat, c: Config)
    requires c.hiddenSize > 0 && c.intermediateSize > 0 && c.contextLength > 0
    requires PositiveFinite(c.epsilon) && PositiveFinite(c.ropeBase)
    ensures DescribesSizes(metadata, narrow, c) <==>
      && RequireU32(metadata, "qwen35.embedding_length") == Ok(c.hiddenSize)
      && RequireU32(metadata, "qwen35.feed_forward_length") == Ok(c.intermediateSize)
      && RequireU32(metadata, "qwen35.context_length") == Ok(c.contextLength)
      && RequireFloat(metadata, "qwen35.attention.layer_norm_rms_epsilon", narrow) == Ok(c.epsilon)
      && RequireFloat(metadata, "qwen35.rope.freq_base", narrow) == Ok(c.ropeBase)
      && Vocabulary(metadata) == Ok(c.vocabularySize)
  {
    hide RequireU32, RequireFloat, Vocabulary, Keeps, KeepsFloat, KeepsStrings;
    U32Kept(metadata, "qwen35.embedding_length", c.hiddenSize);
    U32Kept(metadata, "qwen35.feed_forward_length", c.intermediateSize);
    U32Kept(metadata, "qwen35.context_length", c.contextLength);
    FloatKept(metadata, "qwen35.attention.layer_norm_rms_epsilon", narrow, c.epsilon);
    FloatKept(metadata, "qwen35.rope.freq_base", narrow, c.ropeBase);
    VocabularyKept(metadata, c.vocabularySize);
  }

  lemma {:induction false} FullKept(metadata: Metadata, narrow: nat -> nat, c: Config, raw: Raw)
    requires Read(metadata, narrow, c, raw) && FieldsAgree(c, raw)
    ensures DescribesFull(metadata, c)
  {
    hide RequireU32, OptionalU32, RequireFloat, Vocabulary, Keeps, PositiveFinite;
    U32Kept(metadata, "qwen35.attention.head_count", c.fullHeads);
    U32Kept(metadata, "qwen35.attention.head_count_kv", c.fullKvHeads);
    U32Kept(metadata, "qwen35.attention.key_length", c.fullHeadDim);
    U32Kept(metadata, "qwen35.attention.value_length", c.fullHeadDim);
    U32Kept(metadata, "qwen35.rope.dimension_count", c.rotaryDim);
  }

  lemma {:induction false} LinearKept(metadata: Metadata, narrow: nat -> nat, c: Config, raw: Raw)
    requires Read(metadata, narrow, c, raw) && FieldsAgree(c, raw)
    ensures c.linearHeadDim > 0 && DescribesLinear(metadata, c.(linearValueHeads := raw.innerSize / c.linearHeadDim))
  {
    hide RequireU32, OptionalU32, RequireFloat, Vocabulary, Keeps, PositiveFinite;
    U32Kept(metadata, "qwen35.ssm.conv_kernel", c.convolutionWidth);
    U32Kept(metadata, "qwen35.ssm.state_size", c.linearHeadDim);
    U32Kept(metadata, "qwen35.ssm.group_count", c.linearKeyHeads);
    U32Kept(metadata, "qwen35.ssm.time_step_rank", raw.timeStepRank);
    U32Kept(metadata, "qwen35.ssm.inner_size", raw.innerSize);
    DividesExactly(raw.innerSize, c.linearHeadDim);
  }

  lemma {:induction false} LayerTypeRead(v: MetadataValue, kind: BlockKind)
    ensures ParseLayerType(v) == Ok(kind) <==>
              v == Str(Ascii(if kind.FullAttention? then "full_attention" else "linear_attention"))
  {
    assert Ascii("full_attention")[0] != Ascii("linear_attention")[0];
  }

  /** The layer-type list says what the kinds are, or is absent. */
  lemma {:induction false} TypesKept(metadata: Metadata, blocks: seq<BlockPlan>, interval: nat)
    requires interval > 0
    requires forall b :: 0 <= b < |blocks| ==> blocks[b].kind == KindAt(b, interval)
    ensures TypesAgree(metadata, |blocks|, interval) <==>
              (Ascii("qwen35.layer_types") in metadata ==>
                 KeepsStrings(metadata, "qwen35.layer_types", |blocks|)
                 && forall b :: 0 <= b < |blocks| ==>
                      metadata[Ascii("qwen35.layer_types")].values[b]
                      == Str(Ascii(if blocks[b].kind.FullAttention? then "full_attention" else "linear_attention")))
  {
    hide ParseLayerType, Ascii, KindAt;
    forall v: MetadataValue, kind: BlockKind
      ensures ParseLayerType(v) == Ok(kind) <==>
                v == Str(Ascii(if kind.FullAttention? then "full_attention" else "linear_attention"))
    {
      LayerTypeRead(v, kind);
    }
  }

  lemma {:induction false} BlocksKept(metadata: Metadata, narrow: nat -> nat, c: Config, raw: Raw, blocks: seq<BlockPlan>)
    requires Read(metadata, narrow, c, raw) && FieldsAgree(c, raw)
    requires PlanOf(blocks, raw.totalBlocks - raw.nextn, raw.interval)
    requires TypesAgree(metadata, |blocks|, raw.interval)
    ensures DescribesBlocks(metadata, blocks, raw.totalBlocks, raw.interval)
  {
    hide RequireU32, RequireFloat, Vocabulary, Keeps, KeepsStrings, TypesAgree, PositiveFinite, Ascii;
    U32Kept(metadata, "qwen35.block_count", raw.totalBlocks);
    U32Kept(metadata, "qwen35.nextn_predict_layers", raw.nextn);
    U32Kept(metadata, "qwen35.full_attention_interval", raw.interval);
    OptionalKept(metadata, "qwen35.nextn_predict_layers", raw.nextn);
    TypesKept(metadata, blocks, raw.interval);
  }

  lemma {:induction false} OptionalKept(metadata: Metadata, key: string, n: nat)
    ensures OptionalU32(metadata, key, 0) == Ok(n) <==> if Ascii(key) in metadata then Keeps(metadata, key, n) else n == 0
  {
  }

  // ----- and back -----

  function RawOf(c: Config, total: nat, interval: nat): Raw
    requires |c.blocks| <= total
  {
    Raw(total, total - |c.blocks|, c.fullHeadDim, c.fullHeadDim, c.linearValueHeads, c.linearValueHeads * c.linearHeadDim, interval)
  }

  lemma {:induction false} DescribedRead(metadata: Metadata, narrow: nat -> nat, c: Config, total: nat, interval: nat)
    requires Describes(metadata, narrow, c, total, interval)
    ensures Read(metadata, narrow, c.(linearValueHeads := 0, blocks := []), RawOf(c, total, interval))
  {
    hide RequireU32, RequireFloat, Vocabulary, Keeps, KeepsFloat, KeepsStrings, OptionalU32, Ascii;
    var raw := RawOf(c, total, interval);
    SizesKept(metadata, narrow, c);
    U32Kept(metadata, "qwen35.attention.head_count", c.fullHeads);
    U32Kept(metadata, "qwen35.attention.head_count_kv", c.fullKvHeads);
    U32Kept(metadata, "qwen35.attention.key_length", c.fullHeadDim);
    U32Kept(metadata, "qwen35.attention.value_length", c.fullHeadDim);
    U32Kept(metadata, "qwen35.rope.dimension_count", c.rotaryDim);
    U32Kept(metadata, "qwen35.ssm.conv_kernel", c.convolutionWidth);
    U32Kept(metadata, "qwen35.ssm.state_size", c.linearHeadDim);
    U32Kept(metadata, "qwen35.ssm.group_count", c.linearKeyHeads);
    U32Kept(metadata, "qwen35.ssm.time_step_rank", c.linearValueHeads);
    U32Kept(metadata, "qwen35.ssm.inner_size", raw.innerSize);
    U32Kept(metadata, "qwen35.block_count", total);
    U32Kept(metadata, "qwen35.full_attention_interval", interval);
    OptionalKept(metadata, "qwen35.nextn_predict_layers", raw.nextn);
  }

  lemma {:induction false} DescribedAgrees(metadata: Metadata, narrow: nat -> nat, c: Config, total: nat, interval: nat)
    requires Describes(metadata, narrow, c, total, interval)
    ensures FieldsAgree(c.(linearValueHeads := 0, blocks := []), RawOf(c, total, interval))
    ensures (c.linearValueHeads * c.linearHeadDim) / c.linearHeadDim == c.linearValueHeads
    ensures PlanOf(c.blocks, |c.blocks|, interval) && TypesAgree(metadata, |c.blocks|, interval)
  {
    hide Keeps, KeepsFloat, KeepsStrings, Ascii, TypesAgree;
    QuotientUnique(c.linearValueHeads * c.linearHeadDim, c.linearHeadDim, c.linearValueHeads, 0);
    MulLe(1, c.linearHeadDim, c.linearValueHeads);
    TypesKept(metadata, c.blocks, interval);
  }

  /** A configuration is derived exactly when the metadata describes it: each of its fields stands
      under its own key, the sizes agree with each other, and the blocks follow the interval. */
  lemma {:induction false} ConfigDescribed(metadata: Metadata, narrow: nat -> nat, c: Config)
    ensures (Derivable(metadata, narrow) && ConfigOf(metadata, narrow) == c)
            <==> exists total, interval :: Describes(metadata, narrow, c, total, interval)
  {
    hide ReadFields, FieldsAgree, TypesAgree, Read, Describes, Ascii;
    if Derivable(metadata, narrow) {
      DerivedDescribed(metadata, narrow);
    }
    forall total, interval | Describes(metadata, narrow, c, total, interval)
      ensures Derivable(metadata, narrow) && ConfigOf(metadata, narrow) == c
    {
      DescribedDerives(metadata, narrow, c, total, interval);
    }
  }

  lemma {:induction false} DerivedDescribed(metadata: Metadata, narrow: nat -> nat)
    requires Derivable(metadata, narrow)
    ensures
      var raw := ReadFields(metadata, narrow).value.1;
      Describes(metadata, narrow, ConfigOf(metadata, narrow), raw.totalBlocks, raw.interval)
  {
    hide ReadFields, TypesAgree, Ascii, Keeps, KeepsFloat, KeepsStrings, RequireU32, OptionalU32, RequireFloat, Vocabulary,
         DescribesBlocks, DescribesLinear, DescribesFull, DescribesSizes;
    var (c, raw) := ReadFields(metadata, narrow).value;
    var config := ConfigOf(metadata, narrow);
    FieldsRead(metadata, narrow, c, raw);
    SizesKept(metadata, narrow, config);
    FullKept(metadata, narrow, c, raw);
    LinearKept(metadata, narrow, c, raw);
    BlocksKept(metadata, narrow, c, raw, config.blocks);
    SameFull(metadata, c, config);
  }

  lemma SameFull(metadata: Metadata, c: Config, d: Config)
    requires DescribesFull(metadata, c) && d == c.(linearValueHeads := d.linearValueHeads, blocks := d.blocks)
    ensures DescribesFull(metadata, d)
    ensures DescribesLinear(metadata, c.(linearValueHeads := d.linearValueHeads)) ==> DescribesLinear(metadata, d)
  {
    hide Keeps, Ascii;
  }

  lemma {:induction false} DescribedDerives(metadata: Metadata, narrow: nat -> nat, c: Config, total: nat, interval: nat)
    requires Describes(metadata, narrow, c, total, interval)
    ensures Derivable(metadata, narrow) && ConfigOf(metadata, narrow) == c
  {
    hide ReadFields, FieldsAgree, TypesAgree, Read, Ascii, DescribesLinear, DescribesFull, DescribesSizes, Keeps, KeepsStrings;
    DescribedRead(metadata, narrow, c, total, interval);
    DescribedAgrees(metadata, narrow, c, total, interval);
    FieldsRead(metadata, narrow, c.(linearValueHeads := 0, blocks := []), RawOf(c, total, interval));
    assert c.blocks == seq(|c.blocks|, b requires b >= 0 => BlockPlan(b, KindAt(b, interval)));
  }
}
