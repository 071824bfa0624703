/** Finding every tensor the model needs in the catalog, with the shape the configuration asks for. */
module Qwen35Manifest {
  import opened Prelude
  import opened Gguf
  import opened Qwen35Config

  datatype CommonTensors = CommonTensors(
    inputNorm: TensorInfo, postAttentionNorm: TensorInfo,
    ffnGate: TensorInfo, ffnDown: TensorInfo, ffnUp: TensorInfo)

  datatype FullTensors = FullTensors(
    query: TensorInfo, key: TensorInfo, value: TensorInfo, output: TensorInfo,
    queryNorm: TensorInfo, keyNorm: TensorInfo)

  datatype LinearTensors = LinearTensors(
    qkv: TensorInfo, gate: TensorInfo, convolution: TensorInfo, timeStepBias: TensorInfo,
    recurrentA: TensorInfo, beta: TensorInfo, alpha: TensorInfo, outputNorm: TensorInfo, output: TensorInfo)

  /** A layer carries exactly one of the two mixers. */
  datatype Mixer = FullBranch(full: FullTensors) | LinearBranch(linear: LinearTensors)

  datatype LayerManifest = LayerManifest(index: nat, common: CommonTensors, mixer: Mixer)

  datatype Manifest = Manifest(
    tokenEmbedding: TensorInfo, outputNorm: TensorInfo, output: TensorInfo, layers: seq<LayerManifest>)

  // ----- lookups -----

  /** The first tensor of that name. */
  function FindTensor(tensors: seq<TensorInfo>, name: seq<byte>): (r: Option<TensorInfo>)
    ensures r.Some? ==> r.value in tensors && r.value.name == name
    ensures r.None? ==> forall t :: t in tensors ==> t.name != name
  {
    if |tensors| == 0 then None
    else if tensors[0].name == name then Some(tensors[0])
    else FindTensor(tensors[1..], name)
  }

  function RequireTensor(catalog: Catalog, name: string, dimensions: seq<nat>): (r: Result<TensorInfo>)
    ensures r.Ok? ==> Located(catalog, r.value, name, dimensions)
  {
    var found := FindTensor(catalog.tensors, Ascii(name));
    if found.Some? && found.value.dimensions == dimensions then Ok(found.value) else Err
  }

  ghost predicate Located(catalog: Catalog, t: TensorInfo, name: string, dimensions: seq<nat>) {
    t in catalog.tensors && t.name == Ascii(name) && t.dimensions == dimensions
  }

  function Decimal(n: nat): (s: string)
    ensures |s| > 0
  {
    var digit := ['0' + (n % 10) as char];
    if n < 10 then digit else Decimal(n / 10) + digit
  }

  /** A number as it is written: digits, the first of them zero only when it is the only one. */
  predicate IsNumeral(s: string) {
    && |s| > 0 && (|s| > 1 ==> s[0] != '0')
    && forall i :: 0 <= i < |s| ==> '0' <= s[i] <= '9'
  }

  /** What digits stand for, the last one worth one and each other ten times the next. */
  function ValueOf(s: string): (n: nat)
    requires forall i :: 0 <= i < |s| ==> '0' <= s[i] <= '9'
  {
    if |s| == 0 then 0 else 10 * ValueOf(s[..|s| - 1]) + (s[|s| - 1] as nat - '0' as nat)
  }

  lemma {:induction false} DecimalReads(n: nat)
    ensures IsNumeral(Decimal(n)) && ValueOf(Decimal(n)) == n
    ensures n > 0 ==> Decimal(n)[0] != '0'
  {
    if n >= 10 {
      DecimalReads(n / 10);
      assert Decimal(n)[..|Decimal(n)| - 1] == Decimal(n / 10);
    }
  }

  lemma {:induction false} NumeralIsDecimal(s: string)
    requires IsNumeral(s)
    ensures s == Decimal(ValueOf(s))
  {
    var front := s[..|s| - 1];
    assert s == front + [s[|s| - 1]];
    if |s| > 1 {
      NumeralIsDecimal(front);
      DecimalReads(0);
      assert front[0] == s[0];
      assert ValueOf(front) > 0;
      assert ValueOf(s) / 10 == ValueOf(front);
    }
  }

  /** The block number in a tensor's name is the numeral that reads as it, and no other string. */
  lemma {:induction false} DecimalExact(n: nat, s: string)
    ensures s == Decimal(n) <==> IsNumeral(s) && ValueOf(s) == n
  {
    DecimalReads(n);
    if IsNumeral(s) {
      NumeralIsDecimal(s);
    }
  }

  function BlockName(index: nat, suffix: string): string {
    "blk." + Decimal(index) + "." + suffix
  }

  // ----- widths, in 64-bit arithmetic -----

  function Mul64(a: nat, b: nat): (p: nat)
    ensures p <= U64_MAX
  {
    (a * b) % (U64_MAX + 1)
  }

  function Add64(a: nat, b: nat): (s: nat)
    ensures s <= U64_MAX
  {
    (a + b) % (U64_MAX + 1)
  }

  datatype Widths = Widths(fullQuery: nat, fullKv: nat, linearKey: nat, linearValue: nat, linearQkv: nat)

  function WidthsOf(c: Config): Widths {
    var key, value := Mul64(c.linearKeyHeads, c.linearHeadDim), Mul64(c.linearValueHeads, c.linearHeadDim);
    Widths(Mul64(c.fullHeads, c.fullHeadDim), Mul64(c.fullKvHeads, c.fullHeadDim), key, value, Add64(Mul64(key, 2), value))
  }

  lemma DivisorLe(n: nat, d: nat)
    requires 0 < n && 0 < d && n % d == 0
    ensures d <= n
  {
  }

  lemma Mul64Exact(a: nat, b: nat)
    requires a * b <= U64_MAX
    ensures Mul64(a, b) == a * b
  {
  }

  lemma Add64Exact(a: nat, b: nat)
    requires a + b <= U64_MAX
    ensures Add64(a, b) == a + b
  {
  }

  /** An accepted configuration keeps every width far from wrapping around. */
  lemma {:induction false} WidthsExact(c: Config)
    requires ValidConfig(c)
    ensures
      var w := WidthsOf(c);
      && w.fullQuery == c.fullHeads * c.fullHeadDim == c.hiddenSize
      && w.fullKv == c.fullKvHeads * c.fullHeadDim <= c.hiddenSize
      && w.linearKey == c.linearKeyHeads * c.linearHeadDim <= w.linearValue
      && w.linearValue == c.linearValueHeads * c.linearHeadDim <= U32_MAX
      && w.linearQkv == w.linearKey + w.linearKey + w.linearValue
  {
    hide Mul64, Add64;
    DivisorLe(c.fullHeads, c.fullKvHeads);
    MulLe(c.fullKvHeads, c.fullHeads, c.fullHeadDim);
    DivisorLe(c.linearValueHeads, c.linearKeyHeads);
    MulLe(c.linearKeyHeads, c.linearValueHeads, c.linearHeadDim);
    Mul64Exact(c.fullHeads, c.fullHeadDim);
    Mul64Exact(c.fullKvHeads, c.fullHeadDim);
    Mul64Exact(c.linearKeyHeads, c.linearHeadDim);
    Mul64Exact(c.linearValueHeads, c.linearHeadDim);
    Mul64Exact(c.linearKeyHeads * c.linearHeadDim, 2);
    Add64Exact(2 * (c.linearKeyHeads * c.linearHeadDim), c.linearValueHeads * c.linearHeadDim);
  }

  // ----- what an accepted manifest promises -----

  ghost predicate LocatedCommon(catalog: Catalog, c: Config, i: nat, t: CommonTensors) {
    && Located(catalog, t.inputNorm, BlockName(i, "attn_norm.weight"), [c.hiddenSize])
    && Located(catalog, t.postAttentionNorm, BlockName(i, "post_attention_norm.weight"), [c.hiddenSize])
    && Located(catalog, t.ffnGate, BlockName(i, "ffn_gate.weight"), [c.hiddenSize, c.intermediateSize])
    && Located(catalog, t.ffnDown, BlockName(i, "ffn_down.weight"), [c.intermediateSize, c.hiddenSize])
    && Located(catalog, t.ffnUp, BlockName(i, "ffn_up.weight"), [c.hiddenSize, c.intermediateSize])
  }

  ghost predicate LocatedFull(catalog: Catalog, c: Config, i: nat, t: FullTensors) {
    var w := WidthsOf(c);
    && Located(catalog, t.query, BlockName(i, "attn_q.weight"), [c.hiddenSize, Mul64(w.fullQuery, 2)])
    && Located(catalog, t.key, BlockName(i, "attn_k.weight"), [c.hiddenSize, w.fullKv])
    && Located(catalog, t.value, BlockName(i, "attn_v.weight"), [c.hiddenSize, w.fullKv])
    && Located(catalog, t.output, BlockName(i, "attn_output.weight"), [w.fullQuery, c.hiddenSize])
    && Located(catalog, t.queryNorm, BlockName(i, "attn_q_norm.weight"), [c.fullHeadDim])
    && Located(catalog, t.keyNorm, BlockName(i, "attn_k_norm.weight"), [c.fullHeadDim])
  }

  ghost predicate LocatedLinear(catalog: Catalog, c: Config, i: nat, t: LinearTensors) {
    var w := WidthsOf(c);
    && Located(catalog, t.qkv, BlockName(i, "attn_qkv.weight"), [c.hiddenSize, w.linearQkv])
    && Located(catalog, t.gate, BlockName(i, "attn_gate.weight"), [c.hiddenSize, w.linearValue])
    && Located(catalog, t.convolution, BlockName(i, "ssm_conv1d.weight"), [c.convolutionWidth, w.linearQkv])
    && Located(catalog, t.timeStepBias, BlockName(i, "ssm_dt.bias"), [c.linearValueHeads])
    && Located(catalog, t.recurrentA, BlockName(i, "ssm_a"), [c.linearValueHeads])
    && Located(catalog, t.beta, BlockName(i, "ssm_beta.weight"), [c.hiddenSize, c.linearValueHeads])
    && Located(catalog, t.alpha, BlockName(i, "ssm_alpha.weight"), [c.hiddenSize, c.linearValueHeads])
    && Located(catalog, t.outputNorm, BlockName(i, "ssm_norm.weight"), [c.linearHeadDim])
    && Located(catalog, t.output, BlockName(i, "ssm_out.weight"), [w.linearValue, c.hiddenSize])
  }

  ghost predicate LocatedLayer(catalog: Catalog, c: Config, i: nat, layer: LayerManifest)
    requires i < |c.blocks|
  {
    && layer.index == i
    && LocatedCommon(catalog, c, i, layer.common)
    && (layer.mixer.FullBranch? <==> c.blocks[i].kind.FullAttention?)
    && match layer.mixer
       case FullBranch(t) => LocatedFull(catalog, c, i, t)
       case LinearBranch(t) => LocatedLinear(catalog, c, i, t)
  }

  ghost predicate LocatedManifest(catalog: Catalog, c: Config, m: Manifest) {
    && Located(catalog, m.tokenEmbedding, "token_embd.weight", [c.hiddenSize, c.vocabularySize])
    && Located(catalog, m.outputNorm, "output_norm.weight", [c.hiddenSize])
    && Located(catalog, m.output, "output.weight", [c.hiddenSize, c.vocabularySize])
    && |m.layers| == |c.blocks|
    && forall i :: 0 <= i < |m.layers| ==> LocatedLayer(catalog, c, i, m.layers[i])
  }

  // ----- validation -----

  function CommonOf(catalog: Catalog, c: Config, i: nat): (r: Result<CommonTensors>)
    ensures r.Ok? ==> LocatedCommon(catalog, c, i, r.value)
  {
    var inputNorm := RequireTensor(catalog, BlockName(i, "attn_norm.weight"), [c.hiddenSize]);
    var postNorm := RequireTensor(catalog, BlockName(i, "post_attention_norm.weight"), [c.hiddenSize]);
    var gate := RequireTensor(catalog, BlockName(i, "ffn_gate.weight"), [c.hiddenSize, c.intermediateSize]);
    var down := RequireTensor(catalog, BlockName(i, "ffn_down.weight"), [c.intermediateSize, c.hiddenSize]);
    var up := RequireTensor(catalog, BlockName(i, "ffn_up.weight"), [c.hiddenSize, c.intermediateSize]);
    if inputNorm.Ok? && postNorm.Ok? && gate.Ok? && down.Ok? && up.Ok?
    then Ok(CommonTensors(inputNorm.value, postNorm.value, gate.value, down.value, up.value))
    else Err
  }

  function FullOf(catalog: Catalog, c: Config, i: nat): (r: Result<FullTensors>)
    ensures r.Ok? ==> LocatedFull(catalog, c, i, r.value)
  {
    var w := WidthsOf(c);
    var query := RequireTensor(catalog, BlockName(i, "attn_q.weight"), [c.hiddenSize, Mul64(w.fullQuery, 2)]);
    var key := RequireTensor(catalog, BlockName(i, "attn_k.weight"), [c.hiddenSize, w.fullKv]);
    var value := RequireTensor(catalog, BlockName(i, "attn_v.weight"), [c.hiddenSize, w.fullKv]);
    var output := RequireTensor(catalog, BlockName(i, "attn_output.weight"), [w.fullQuery, c.hiddenSize]);
    var queryNorm := RequireTensor(catalog, BlockName(i, "attn_q_norm.weight"), [c.fullHeadDim]);
    var keyNorm := RequireTensor(catalog, BlockName(i, "attn_k_norm.weight"), [c.fullHeadDim]);
    if query.Ok? && key.Ok? && value.Ok? && output.Ok? && queryNorm.Ok? && keyNorm.Ok?
    then Ok(FullTensors(query.value, key.value, value.value, output.value, queryNorm.value, keyNorm.value))
    else Err
  }

  function LinearOf(catalog: Catalog, c: Config, i: nat): (r: Result<LinearTensors>)
    ensures r.Ok? ==> LocatedLinear(catalog, c, i, r.value)
  {
    var w := WidthsOf(c);
    var qkv := RequireTensor(catalog, BlockName(i, "attn_qkv.weight"), [c.hiddenSize, w.linearQkv]);
    var gate := RequireTensor(catalog, BlockName(i, "attn_gate.weight"), [c.hiddenSize, w.linearValue]);
    var convolution := RequireTensor(catalog, BlockName(i, "ssm_conv1d.weight"), [c.convolutionWidth, w.linearQkv]);
    var bias := RequireTensor(catalog, BlockName(i, "ssm_dt.bias"), [c.linearValueHeads]);
    var recurrentA := RequireTensor(catalog, BlockName(i, "ssm_a"), [c.linearValueHeads]);
    var beta := RequireTensor(catalog, BlockName(i, "ssm_beta.weight"), [c.hiddenSize, c.linearValueHeads]);
    var alpha := RequireTensor(catalog, BlockName(i, "ssm_alpha.weight"), [c.hiddenSize, c.linearValueHeads]);
    var outputNorm := RequireTensor(catalog, BlockName(i, "ssm_norm.weight"), [c.linearHeadDim]);
    var output := RequireTensor(catalog, BlockName(i, "ssm_out.weight"), [w.linearValue, c.hiddenSize]);
    if qkv.Ok? && gate.Ok? && convolution.Ok? && bias.Ok? && recurrentA.Ok? && beta.Ok? && alpha.Ok?
       && outputNorm.Ok? && output.Ok?
    then Ok(LinearTensors(qkv.value, gate.value, convolution.value, bias.value, recurrentA.value, beta.value,
                          alpha.value, outputNorm.value, output.value))
    else Err
  }

  function MixerOf(catalog: Catalog, c: Config, i: nat): (r: Result<Mixer>)
    requires i < |c.blocks|
  {
    if c.blocks[i].kind.FullAttention? then
      var full := FullOf(catalog, c, i);
      if full.Ok? then Ok(FullBranch(full.value)) else Err
    else
      var linear := LinearOf(catalog, c, i);
      if linear.Ok? then Ok(LinearBranch(linear.value)) else Err
  }

  ghost predicate UniqueNames(catalog: Catalog) {
    forall i, j :: 0 <= i < |catalog.tensors| && 0 <= j < |catalog.tensors| && i != j ==>
      catalog.tensors[i].name != catalog.tensors[j].name
  }

  /** With unique names the lookup finds whatever is there. */
  lemma RequireComplete(catalog: Catalog, t: TensorInfo, name: string, dimensions: seq<nat>)
    requires UniqueNames(catalog) && Located(catalog, t, name, dimensions)
    ensures RequireTensor(catalog, name, dimensions) == Ok(t)
  {
    hide Ascii, FindTensor;
  }

  lemma CommonComplete(catalog: Catalog, c: Config, i: nat, t: CommonTensors)
    requires UniqueNames(catalog) && LocatedCommon(catalog, c, i, t)
    ensures CommonOf(catalog, c, i) == Ok(t)
  {
    hide RequireTensor, Located, UniqueNames, BlockName;
    RequireComplete(catalog, t.inputNorm, BlockName(i, "attn_norm.weight"), [c.hiddenSize]);
    RequireComplete(catalog, t.postAttentionNorm, BlockName(i, "post_attention_norm.weight"), [c.hiddenSize]);
    RequireComplete(catalog, t.ffnGate, BlockName(i, "ffn_gate.weight"), [c.hiddenSize, c.intermediateSize]);
    RequireComplete(catalog, t.ffnDown, BlockName(i, "ffn_down.weight"), [c.intermediateSize, c.hiddenSize]);
    RequireComplete(catalog, t.ffnUp, BlockName(i, "ffn_up.weight"), [c.hiddenSize, c.intermediateSize]);
  }

  lemma FullComplete(catalog: Catalog, c: Config, i: nat, t: FullTensors)
    requires UniqueNames(catalog) && LocatedFull(catalog, c, i, t)
    ensures FullOf(catalog, c, i) == Ok(t)
  {
    hide RequireTensor, Located, UniqueNames, BlockName, WidthsOf, Mul64;
    var w := WidthsOf(c);
    RequireComplete(catalog, t.query, BlockName(i, "attn_q.weight"), [c.hiddenSize, Mul64(w.fullQuery, 2)]);
    RequireComplete(catalog, t.key, BlockName(i, "attn_k.weight"), [c.hiddenSize, w.fullKv]);
    RequireComplete(catalog, t.value, BlockName(i, "attn_v.weight"), [c.hiddenSize, w.fullKv]);
    RequireComplete(catalog, t.output, BlockName(i, "attn_output.weight"), [w.fullQuery, c.hiddenSize]);
    RequireComplete(catalog, t.queryNorm, BlockName(i, "attn_q_norm.weight"), [c.fullHeadDim]);
    RequireComplete(catalog, t.keyNorm, BlockName(i, "attn_k_norm.weight"), [c.fullHeadDim]);
  }

  lemma LinearComplete(catalog: Catalog, c: Config, i: nat, t: LinearTensors)
    requires UniqueNames(catalog) && LocatedLinear(catalog, c, i, t)
    ensures LinearOf(catalog, c, i) == Ok(t)
  {
    hide RequireTensor, Located, UniqueNames, BlockName, WidthsOf;
    var w := WidthsOf(c);
    RequireComplete(catalog, t.qkv, BlockName(i, "attn_qkv.weight"), [c.hiddenSize, w.linearQkv]);
    RequireComplete(catalog, t.gate, BlockName(i, "attn_gate.weight"), [c.hiddenSize, w.linearValue]);
    RequireComplete(catalog, t.convolution, BlockName(i, "ssm_conv1d.weight"), [c.convolutionWidth, w.linearQkv]);
    RequireComplete(catalog, t.timeStepBias, BlockName(i, "ssm_dt.bias"), [c.linearValueHeads]);
    RequireComplete(catalog, t.recurrentA, BlockName(i, "ssm_a"), [c.linearValueHeads]);
    RequireComplete(catalog, t.beta, BlockName(i, "ssm_beta.weight"), [c.hiddenSize, c.linearValueHeads]);
    RequireComplete(catalog, t.alpha, BlockName(i, "ssm_alpha.weight"), [c.hiddenSize, c.linearValueHeads]);
    RequireComplete(catalog, t.outputNorm, BlockName(i, "ssm_norm.weight"), [c.linearHeadDim]);
    RequireComplete(catalog, t.output, BlockName(i, "ssm_out.weight"), [w.linearValue, c.hiddenSize]);
  }

  lemma LayerComplete(catalog: Catalog, c: Config, i: nat, layer: LayerManifest)
    requires UniqueNames(catalog) && i < |c.blocks| && LocatedLayer(catalog, c, i, layer)
    ensures CommonOf(catalog, c, i) == Ok(layer.common) && MixerOf(catalog, c, i) == Ok(layer.mixer)
  {
    hide LocatedCommon, LocatedFull, LocatedLinear, CommonOf, FullOf, LinearOf, UniqueNames;
    CommonComplete(catalog, c, i, layer.common);
    match layer.mixer
    case FullBranch(t) => FullComplete(catalog, c, i, t);
    case LinearBranch(t) => LinearComplete(catalog, c, i, t);
  }

  /** Where names are unique, a manifest that exists is the one every lookup leads to. */
  lemma ManifestComplete(catalog: Catalog, c: Config, m: Manifest)
    requires UniqueNames(catalog) && LocatedManifest(catalog, c, m)
    ensures RequireTensor(catalog, "token_embd.weight", [c.hiddenSize, c.vocabularySize]) == Ok(m.tokenEmbedding)
    ensures RequireTensor(catalog, "output_norm.weight", [c.hiddenSize]) == Ok(m.outputNorm)
    ensures RequireTensor(catalog, "output.weight", [c.hiddenSize, c.vocabularySize]) == Ok(m.output)
    ensures |m.layers| == |c.blocks|
    ensures forall i :: 0 <= i < |c.blocks| ==>
      CommonOf(catalog, c, i) == Ok(m.layers[i].common) && MixerOf(catalog, c, i) == Ok(m.layers[i].mixer)
  {
    hide LocatedLayer, CommonOf, MixerOf, UniqueNames, RequireTensor, Located;
    RequireComplete(catalog, m.tokenEmbedding, "token_embd.weight", [c.hiddenSize, c.vocabularySize]);
    RequireComplete(catalog, m.outputNorm, "output_norm.weight", [c.hiddenSize]);
    RequireComplete(catalog, m.output, "output.weight", [c.hiddenSize, c.vocabularySize]);
    forall i | 0 <= i < |c.blocks|
      ensures CommonOf(catalog, c, i) == Ok(m.layers[i].common) && MixerOf(catalog, c, i) == Ok(m.layers[i].mixer)
    {
      LayerComplete(catalog, c, i, m.layers[i]);
    }
  }

  lemma NoneMissed(catalog: Catalog, c: Config)
    ensures forall m :: UniqueNames(catalog) && LocatedManifest(catalog, c, m) ==>
      && RequireTensor(catalog, "token_embd.weight", [c.hiddenSize, c.vocabularySize]).Ok?
      && RequireTensor(catalog, "output_norm.weight", [c.hiddenSize]).Ok?
      && RequireTensor(catalog, "output.weight", [c.hiddenSize, c.vocabularySize]).Ok?
      && forall i :: 0 <= i < |c.blocks| ==> CommonOf(catalog, c, i).Ok? && MixerOf(catalog, c, i).Ok?
  {
    hide LocatedManifest, UniqueNames, CommonOf, MixerOf, RequireTensor;
    forall m | UniqueNames(catalog) && LocatedManifest(catalog, c, m)
      ensures
        && RequireTensor(catalog, "token_embd.weight", [c.hiddenSize, c.vocabularySize]).Ok?
        && RequireTensor(catalog, "output_norm.weight", [c.hiddenSize]).Ok?
        && RequireTensor(catalog, "output.weight", [c.hiddenSize, c.vocabularySize]).Ok?
        && forall i :: 0 <= i < |c.blocks| ==> CommonOf(catalog, c, i).Ok? && MixerOf(catalog, c, i).Ok?
    {
      ManifestComplete(catalog, c, m);
    }
  }

  method ValidateManifest(catalog: Catalog, c: Config) returns (r: Result<Manifest>)
    ensures r.Ok? ==> LocatedManifest(catalog, c, r.value) && InOrder(c.blocks)
    ensures r.Err? && UniqueNames(catalog) && InOrder(c.blocks) ==> forall m :: !LocatedManifest(catalog, c, m)
  {
    hide RequireTensor, Located, LocatedCommon, LocatedFull, LocatedLinear, CommonOf, FullOf, LinearOf, UniqueNames;
    NoneMissed(catalog, c);
    if |c.blocks| == 0 {
      return Err;
    }
    var embedding := RequireTensor(catalog, "token_embd.weight", [c.hiddenSize, c.vocabularySize]);
    var outputNorm := RequireTensor(catalog, "output_norm.weight", [c.hiddenSize]);
    var output := RequireTensor(catalog, "output.weight", [c.hiddenSize, c.vocabularySize]);
    if embedding.Err? || outputNorm.Err? || output.Err? {
      return Err;
    }
    var layers := [];
    for position := 0 to |c.blocks|
      invariant |layers| == position
      invariant forall i :: 0 <= i < position ==> LocatedLayer(catalog, c, i, layers[i])
      invariant forall b :: 0 <= b < position ==> c.blocks[b].index == b
    {
      if c.blocks[position].index != position {
        return Err;
      }
      var common := CommonOf(catalog, c, position);
      var mixer := MixerOf(catalog, c, position);
      if common.Err? || mixer.Err? {
        return Err;
      }
      layers := layers + [LayerManifest(position, common.value, mixer.value)];
    }
    r := Ok(Manifest(embedding.value, outputNorm.value, output.value, layers));
  }
}
