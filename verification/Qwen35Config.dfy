/** Deriving the Qwen3.5 configuration and its block plan from GGUF metadata. */
module Qwen35Config {
  import opened Prelude
  import opened Gguf

  datatype BlockKind = LinearAttention | FullAttention

  datatype BlockPlan = BlockPlan(index: nat, kind: BlockKind)

  /** Floats are float32 bit patterns. */
  datatype Config = Config(
    vocabularySize: nat, hiddenSize: nat, intermediateSize: nat, contextLength: nat,
    fullHeads: nat, fullKvHeads: nat, fullHeadDim: nat,
    linearKeyHeads: nat, linearValueHeads: nat, linearHeadDim: nat, convolutionWidth: nat,
    rotaryDim: nat, epsilon: nat, ropeBase: nat, blocks: seq<BlockPlan>)

  /** Blocks are numbered in order, and there is one. */
  predicate InOrder(blocks: seq<BlockPlan>) {
    0 < |blocks| && forall b :: 0 <= b < |blocks| ==> blocks[b].index == b
  }

  ghost predicate SomeFull(blocks: seq<BlockPlan>) {
    exists b :: 0 <= b < |blocks| && blocks[b].kind.FullAttention?
  }

  predicate InVocabulary(tokens: seq<int>, vocabulary: nat) {
    forall t :: 0 <= t < |tokens| ==> 0 <= tokens[t] < vocabulary
  }

  type Metadata = map<seq<byte>, MetadataValue>

  /** The bytes of an ASCII string. */
  function Ascii(s: string): (bs: seq<byte>)
    ensures |bs| == |s|
  {
    seq(|s|, i requires 0 <= i < |s| => s[i] as int % 128)
  }

  ghost predicate MetadataFits(metadata: Metadata, limits: Limits) {
    forall k :: k in metadata ==> WellFormedValue(metadata[k], limits)
  }

  /** An unsigned 32-bit value, or a 64-bit one that fits. */
  function U32Of(v: MetadataValue): (r: Result<nat>) {
    match v
    case U32(n) => Ok(n)
    case U64(n) => if n <= U32_MAX then Ok(n) else Err
    case _ => Err
  }

  function RequireU32(metadata: Metadata, key: string): (r: Result<nat>) {
    if Ascii(key) in metadata then U32Of(metadata[Ascii(key)]) else Err
  }

  function OptionalU32(metadata: Metadata, key: string, default: nat): (r: Result<nat>) {
    if Ascii(key) in metadata then U32Of(metadata[Ascii(key)]) else Ok(default)
  }

  lemma U32Fits(metadata: Metadata, limits: Limits, key: string)
    requires MetadataFits(metadata, limits)
    ensures RequireU32(metadata, key).Ok? ==> RequireU32(metadata, key).value <= U32_MAX
    ensures OptionalU32(metadata, key, 0).Ok? ==> OptionalU32(metadata, key, 0).value <= U32_MAX
  {
    Pow256Values();
  }

  // Bits of the largest finite float, as a double.
  const MAX_FLOAT_AS_DOUBLE: nat := 0x47EF_FFFF_E000_0000
  const DOUBLE_SIGN: nat := 0x8000_0000_0000_0000
  const FLOAT_INFINITY: nat := 0x7F80_0000

  /** A float, or a double of float range, which `narrow` casts. */
  function RequireFloat(metadata: Metadata, key: string, narrow: nat -> nat): (r: Result<nat>) {
    if Ascii(key) !in metadata then Err
    else match metadata[Ascii(key)]
      case F32(bits) => Ok(bits)
      case F64(bits) => if bits % DOUBLE_SIGN <= MAX_FLOAT_AS_DOUBLE then Ok(narrow(bits)) else Err
      case _ => Err
  }

  /** Finite and above zero: sign bit clear, exponent not all ones, not zero. */
  predicate PositiveFinite(bits: nat) {
    0 < bits < FLOAT_INFINITY
  }

  // ----- the promises of an accepted configuration -----

  /** Block `b` attends fully exactly when the interval divides `b + 1`. */
  ghost predicate PlanOf(blocks: seq<BlockPlan>, n: nat, interval: nat)
    requires interval > 0
  {
    && |blocks| == n
    && forall b :: 0 <= b < n ==>
         blocks[b] == BlockPlan(b, KindAt(b, interval))
  }

  ghost predicate ValidConfig(c: Config) {
    && 0 < c.vocabularySize <= U32_MAX && 0 < c.hiddenSize <= U32_MAX && 0 < c.intermediateSize <= U32_MAX
    && 0 < c.contextLength <= U32_MAX && 0 < c.convolutionWidth <= U32_MAX
    && 0 < c.fullHeads && 0 < c.fullKvHeads && 0 < c.fullHeadDim
    && 0 < c.linearKeyHeads && 0 < c.linearValueHeads && 0 < c.linearHeadDim
    && c.fullHeads % c.fullKvHeads == 0
    && c.fullHeads * c.fullHeadDim == c.hiddenSize
    && c.linearValueHeads % c.linearKeyHeads == 0
    && c.linearValueHeads * c.linearHeadDim <= U32_MAX
    && 0 < c.rotaryDim <= c.fullHeadDim && c.rotaryDim % 2 == 0
    && PositiveFinite(c.epsilon) && PositiveFinite(c.ropeBase)
    && 0 < |c.blocks| <= U32_MAX
    && forall b :: 0 <= b < |c.blocks| ==> c.blocks[b].index == b
  }

  /** The inner size of the linear mixer, which the configuration itself does not keep. */
  function InnerSize(c: Config): nat { c.linearValueHeads * c.linearHeadDim }

  // ----- derivation -----

  datatype Raw = Raw(
    totalBlocks: nat, nextn: nat, keyLength: nat, valueLength: nat,
    timeStepRank: nat, innerSize: nat, interval: nat)

  predicate IsString(metadata: Metadata, key: string, text: string) {
    Ascii(key) in metadata && metadata[Ascii(key)] == Str(Ascii(text))
  }

  /** The scalar fields, read by key; the value head count and the blocks come later. */
  function ReadFields(metadata: Metadata, narrow: nat -> nat): (r: Result<(Config, Raw)>) {
    var hidden := RequireU32(metadata, "qwen35.embedding_length");
    var intermediate := RequireU32(metadata, "qwen35.feed_forward_length");
    var context := RequireU32(metadata, "qwen35.context_length");
    var total := RequireU32(metadata, "qwen35.block_count");
    var nextn := OptionalU32(metadata, "qwen35.nextn_predict_layers", 0);
    var heads := RequireU32(metadata, "qwen35.attention.head_count");
    var kvHeads := RequireU32(metadata, "qwen35.attention.head_count_kv");
    var keyLength := RequireU32(metadata, "qwen35.attention.key_length");
    var valueLength := RequireU32(metadata, "qwen35.attention.value_length");
    var epsilon := RequireFloat(metadata, "qwen35.attention.layer_norm_rms_epsilon", narrow);
    var ropeBase := RequireFloat(metadata, "qwen35.rope.freq_base", narrow);
    var rotary := RequireU32(metadata, "qwen35.rope.dimension_count");
    var width := RequireU32(metadata, "qwen35.ssm.conv_kernel");
    var dim := RequireU32(metadata, "qwen35.ssm.state_size");
    var keyHeads := RequireU32(metadata, "qwen35.ssm.group_count");
    var rank := RequireU32(metadata, "qwen35.ssm.time_step_rank");
    var inner := RequireU32(metadata, "qwen35.ssm.inner_size");
    var interval := RequireU32(metadata, "qwen35.full_attention_interval");
    var vocabulary := Vocabulary(metadata);
    if IsString(metadata, "general.architecture", "qwen35")
       && hidden.Ok? && intermediate.Ok? && context.Ok? && total.Ok? && nextn.Ok? && heads.Ok? && kvHeads.Ok?
       && keyLength.Ok? && valueLength.Ok? && epsilon.Ok? && ropeBase.Ok? && rotary.Ok? && width.Ok? && dim.Ok?
       && keyHeads.Ok? && rank.Ok? && inner.Ok? && interval.Ok? && vocabulary.Ok? then
      Ok((Config(vocabulary.value, hidden.value, intermediate.value, context.value, heads.value, kvHeads.value,
                 keyLength.value, keyHeads.value, 0, dim.value, width.value, rotary.value, epsilon.value, ropeBase.value, []),
          Raw(total.value, nextn.value, keyLength.value, valueLength.value, rank.value, inner.value, interval.value)))
    else
      Err
  }

  function Vocabulary(metadata: Metadata): (r: Result<nat>)
    ensures r.Ok? ==> 0 < r.value <= U32_MAX
  {
    var key := Ascii("tokenizer.ggml.tokens");
    if key in metadata && metadata[key].Arr? && metadata[key].elementType == TString
       && 0 < |metadata[key].values| <= U32_MAX
    then Ok(|metadata[key].values|) else Err
  }

  /** The layer-type list, when the file carries one: a string array with one entry per block. */
  function LayerTypes(metadata: Metadata, n: nat): (r: Result<Option<seq<MetadataValue>>>)
    ensures r.Ok? && r.value.Some? ==> |r.value.value| == n
  {
    var key := Ascii("qwen35.layer_types");
    if key !in metadata then Ok(None)
    else if metadata[key].Arr? && metadata[key].elementType == TString && |metadata[key].values| == n
    then Ok(Some(metadata[key].values)) else Err
  }

  function ParseLayerType(v: MetadataValue): (r: Result<BlockKind>) {
    if v == Str(Ascii("linear_attention")) then Ok(LinearAttention)
    else if v == Str(Ascii("full_attention")) then Ok(FullAttention)
    else Err
  }

  function KindAt(b: nat, interval: nat): BlockKind
    requires interval > 0
  {
    if (b + 1) % interval == 0 then FullAttention else LinearAttention
  }

  /** The layer-type list is absent or agrees with the interval. */
  predicate TypesAgree(metadata: Metadata, n: nat, interval: nat)
    requires interval > 0
  {
    var types := LayerTypes(metadata, n);
    types.Ok? && (types.value.None? || forall b :: 0 <= b < n ==> ParseLayerType(types.value.value[b]) == Ok(KindAt(b, interval)))
  }

  /** Every field is there, they agree with each other, and so do the layer types. */
  ghost predicate Derivable(metadata: Metadata, narrow: nat -> nat) {
    && ReadFields(metadata, narrow).Ok?
    && (var (c, raw) := ReadFields(metadata, narrow).value;
        FieldsAgree(c, raw) && TypesAgree(metadata, raw.totalBlocks - raw.nextn, raw.interval))
  }

  /** The configuration the metadata describes. */
  ghost function ConfigOf(metadata: Metadata, narrow: nat -> nat): Config
    requires Derivable(metadata, narrow)
  {
    var (c, raw) := ReadFields(metadata, narrow).value;
    c.(linearValueHeads := raw.innerSize / c.linearHeadDim,
       blocks := seq(raw.totalBlocks - raw.nextn, b requires b >= 0 => BlockPlan(b, KindAt(b, raw.interval))))
  }

  /** The interval decides; a layer-type list may only agree with it. */
  method PlanBlocks(n: nat, interval: nat, types: Option<seq<MetadataValue>>) returns (r: Result<seq<BlockPlan>>)
    requires interval > 0 && (types.Some? ==> |types.value| == n)
    ensures r.Ok? ==> PlanOf(r.value, n, interval)
    ensures r.Ok? <==> types.None? || forall b :: 0 <= b < n ==> ParseLayerType(types.value[b]) == Ok(KindAt(b, interval))
  {
    var blocks := [];
    for index := 0 to n
      invariant PlanOf(blocks, index, interval)
      invariant types.Some? ==> forall b :: 0 <= b < index ==> ParseLayerType(types.value[b]) == Ok(KindAt(b, interval))
    {
      var byInterval := KindAt(index, interval);
      var kind := if types.None? then Ok(byInterval) else ParseLayerType(types.value[index]);
      if kind.Err? || kind.value != byInterval {
        return Err;
      }
      blocks := blocks + [BlockPlan(index, kind.value)];
    }
    r := Ok(blocks);
  }

  /** The checks between reading the fields and planning the blocks. */
  predicate FieldsAgree(c: Config, raw: Raw) {
    && c.hiddenSize != 0 && c.intermediateSize != 0 && c.contextLength != 0 && raw.totalBlocks != 0
    && c.fullHeads != 0 && c.fullKvHeads != 0 && raw.keyLength != 0 && raw.valueLength != 0
    && c.convolutionWidth != 0 && c.linearHeadDim != 0 && c.linearKeyHeads != 0
    && raw.timeStepRank != 0 && raw.innerSize != 0 && raw.interval != 0
    && raw.keyLength == raw.valueLength
    && c.fullHeads % c.fullKvHeads == 0
    && c.fullHeads * c.fullHeadDim == c.hiddenSize
    && raw.innerSize % c.linearHeadDim == 0
    && (var valueHeads := raw.innerSize / c.linearHeadDim;
        && valueHeads >= c.linearKeyHeads && valueHeads % c.linearKeyHeads == 0
        && raw.timeStepRank == valueHeads)
    && c.rotaryDim != 0 && c.rotaryDim <= c.fullHeadDim && c.rotaryDim % 2 == 0
    && PositiveFinite(c.epsilon) && PositiveFinite(c.ropeBase)
    && raw.nextn < raw.totalBlocks
    && (raw.totalBlocks - raw.nextn) % raw.interval == 0
  }

  lemma {:induction false} FieldsFit(metadata: Metadata, limits: Limits, narrow: nat -> nat)
    requires MetadataFits(metadata, limits) && ReadFields(metadata, narrow).Ok?
    ensures
      var (c, raw) := ReadFields(metadata, narrow).value;
      && 0 < c.vocabularySize <= U32_MAX && c.hiddenSize <= U32_MAX && c.intermediateSize <= U32_MAX
      && c.contextLength <= U32_MAX && c.convolutionWidth <= U32_MAX
      && raw.totalBlocks <= U32_MAX && raw.innerSize <= U32_MAX
      && raw.keyLength == c.fullHeadDim
  {
    hide Ascii, U32Of, RequireFloat, MetadataFits, OptionalU32, RequireU32;
    U32Fits(metadata, limits, "qwen35.embedding_length");
    U32Fits(metadata, limits, "qwen35.feed_forward_length");
    U32Fits(metadata, limits, "qwen35.context_length");
    U32Fits(metadata, limits, "qwen35.block_count");
    U32Fits(metadata, limits, "qwen35.ssm.conv_kernel");
    U32Fits(metadata, limits, "qwen35.ssm.inner_size");
  }

  method DeriveConfig(metadata: Metadata, narrow: nat -> nat, ghost limits: Limits) returns (r: Result<Config>)
    requires MetadataFits(metadata, limits)
    ensures r.Ok? <==> Derivable(metadata, narrow)
    ensures r.Ok? ==> r.value == ConfigOf(metadata, narrow)
    ensures r.Ok? ==> ValidConfig(r.value) && InnerSize(r.value) == ReadFields(metadata, narrow).value.1.innerSize
    ensures r.Ok? ==>
      var raw := ReadFields(metadata, narrow).value.1;
      && raw.interval > 0 && raw.nextn < raw.totalBlocks && (raw.totalBlocks - raw.nextn) % raw.interval == 0
      && PlanOf(r.value.blocks, raw.totalBlocks - raw.nextn, raw.interval)
  {
    hide ReadFields, PositiveFinite, MetadataFits;
    var fields := ReadFields(metadata, narrow);
    if fields.Err? {
      return Err;
    }
    var (config, raw) := fields.value;
    FieldsFit(metadata, limits, narrow);
    if !FieldsAgree(config, raw) {
      return Err;
    }
    var n := raw.totalBlocks - raw.nextn;
    var types := LayerTypes(metadata, n);
    if types.Err? {
      return Err;
    }
    var blocks := PlanBlocks(n, raw.interval, types.value);
    if blocks.Err? {
      return Err;
    }
    DividesExactly(raw.innerSize, config.linearHeadDim);
    r := Ok(config.(linearValueHeads := raw.innerSize / config.linearHeadDim, blocks := blocks.value));
  }

  /** A plan of whole intervals ends each interval with full attention. */
  lemma PlanHasFull(blocks: seq<BlockPlan>, n: nat, interval: nat)
    requires 0 < interval && 0 < n && n % interval == 0 && PlanOf(blocks, n, interval)
    ensures SomeFull(blocks)
  {
    assert interval <= n;
    assert blocks[interval - 1].kind == KindAt(interval - 1, interval);
  }

  lemma DividesExactly(n: nat, d: nat)
    requires d > 0 && n % d == 0
    ensures (n / d) * d == n
    ensures n > 0 ==> n / d > 0
  {
  }
}
