/** Where every weight of the network comes from: the tensor of the file, by name and shape, and
    the bytes of its payload, cell by cell. */
module WeightSources {
  import opened Prelude
  import opened Gguf
  import opened Scalars
  import opened Kernels
  import opened Qwen35Config
  import opened Qwen35Manifest
  import opened ModelFile
  import opened ShapeSafety
  import opened DeltaNet
  import opened ReferenceNetwork

  /** `xs` are the floats of the payload of `t`: cell `i` is the one its type and its bytes, lowest
      first, say, and the payload has no further bytes. */
  ghost predicate CellsOf(m: Model, t: TensorInfo, xs: seq<Scalar>) {
    var size, begin := ElementSize(t.kind), m.catalog.tensorDataOffset + t.offset;
    && size > 0 && t.byteSize == |xs| * size && begin + t.byteSize <= |m.file|
    && forall i :: 0 <= i < |xs| ==>
         begin <= CellAt(begin, i, size) && CellAt(begin, i, size) + size <= |m.file|
         && xs[i] == Input(FromLittleEndian(m.file[CellAt(begin, i, size)..CellAt(begin, i, size) + size])
                           + 0x1_0000_0000 * t.kind)
  }

  function CellAt(begin: nat, i: nat, size: nat): nat { begin + i * size }

  /** `xs` are the cells of the catalog's only tensor called `name`, which has these dimensions. */
  ghost predicate ReadFrom(m: Model, name: string, dimensions: seq<nat>, xs: seq<Scalar>) {
    exists t :: t in m.catalog.tensors && t.name == Ascii(name) && t.dimensions == dimensions && CellsOf(m, t, xs)
  }

  /** The name of a tensor of block `b`, as the file spells it. */
  function Named(b: nat, suffix: string): string { "blk." + Decimal(b) + "." + suffix }

  ghost predicate FullSources(m: Model, b: nat, w: FullMixerWeights) {
    var c := m.config;
    var queries, kvs := c.fullHeads * c.fullHeadDim, c.fullKvHeads * c.fullHeadDim;
    && ReadFrom(m, Named(b, "attn_q.weight"), [c.hiddenSize, 2 * queries], w.query)
    && ReadFrom(m, Named(b, "attn_k.weight"), [c.hiddenSize, kvs], w.key)
    && ReadFrom(m, Named(b, "attn_v.weight"), [c.hiddenSize, kvs], w.value)
    && ReadFrom(m, Named(b, "attn_output.weight"), [queries, c.hiddenSize], w.output)
    && ReadFrom(m, Named(b, "attn_q_norm.weight"), [c.fullHeadDim], w.queryNorm)
    && ReadFrom(m, Named(b, "attn_k_norm.weight"), [c.fullHeadDim], w.keyNorm)
  }

  ghost predicate LinearSources(m: Model, b: nat, w: LinearMixerWeights) {
    var c := m.config;
    ProjectionSources(m, b, w, c.linearKeyHeads * c.linearHeadDim, c.linearValueHeads * c.linearHeadDim)
    && RecurrenceSources(m, b, w.delta)
  }

  ghost predicate ProjectionSources(m: Model, b: nat, w: LinearMixerWeights, keys: nat, values: nat) {
    var c := m.config;
    && ReadFrom(m, Named(b, "attn_qkv.weight"), [c.hiddenSize, keys + keys + values], w.qkv)
    && ReadFrom(m, Named(b, "attn_gate.weight"), [c.hiddenSize, values], w.gate)
    && ReadFrom(m, Named(b, "ssm_beta.weight"), [c.hiddenSize, c.linearValueHeads], w.beta)
    && ReadFrom(m, Named(b, "ssm_alpha.weight"), [c.hiddenSize, c.linearValueHeads], w.alpha)
    && ReadFrom(m, Named(b, "ssm_conv1d.weight"), [c.convolutionWidth, keys + keys + values], w.delta.conv)
    && ReadFrom(m, Named(b, "ssm_out.weight"), [values, c.hiddenSize], w.output)
  }

  ghost predicate RecurrenceSources(m: Model, b: nat, w: DeltaWeights) {
    var c := m.config;
    && ReadFrom(m, Named(b, "ssm_a"), [c.linearValueHeads], w.recurrentA)
    && ReadFrom(m, Named(b, "ssm_dt.bias"), [c.linearValueHeads], w.dtBias)
    && ReadFrom(m, Named(b, "ssm_norm.weight"), [c.linearHeadDim], w.outputNorm)
  }

  ghost predicate LayerSources(m: Model, b: nat, w: LayerWeights) {
    var c := m.config;
    && ReadFrom(m, Named(b, "attn_norm.weight"), [c.hiddenSize], w.inputNorm)
    && ReadFrom(m, Named(b, "post_attention_norm.weight"), [c.hiddenSize], w.postNorm)
    && ReadFrom(m, Named(b, "ffn_gate.weight"), [c.hiddenSize, c.intermediateSize], w.ffnGate)
    && ReadFrom(m, Named(b, "ffn_up.weight"), [c.hiddenSize, c.intermediateSize], w.ffnUp)
    && ReadFrom(m, Named(b, "ffn_down.weight"), [c.intermediateSize, c.hiddenSize], w.ffnDown)
    && match w.mixer
       case FullMixer(full) => FullSources(m, b, full)
       case LinearMixer(linear) => LinearSources(m, b, linear)
  }

  /** All the weights of the network, each read from its own tensor. */
  ghost predicate NetworkSources(m: Model, w: NetworkWeights) {
    var c := m.config;
    && ReadFrom(m, "token_embd.weight", [c.hiddenSize, c.vocabularySize], w.embedding)
    && ReadFrom(m, "output_norm.weight", [c.hiddenSize], w.outputNorm)
    && ReadFrom(m, "output.weight", [c.hiddenSize, c.vocabularySize], w.output)
    && |w.layers| == |c.blocks|
    && forall b :: 0 <= b < |w.layers| ==>
         LayerSources(m, b, w.layers[b]) && (w.layers[b].mixer.FullMixer? <==> c.blocks[b].kind.FullAttention?)
  }

  // ----- the executor's weights are those -----

  lemma {:induction false} SliceOfSlice(file: seq<byte>, begin: nat, n: nat, i: nat, size: nat)
    requires size > 0 && begin + n * size <= |file| && i < n
    ensures i * size + size <= n * size
    ensures file[begin..begin + n * size][i * size..i * size + size]
            == file[CellAt(begin, i, size)..CellAt(begin, i, size) + size]
  {
    MulLe(i + 1, n, size);
    assert (i + 1) * size == i * size + size;
    SubSlice(file, begin, n * size, i * size, size);
  }

  lemma {:induction false} FloatCell(catalog: Catalog, file: seq<byte>, t: TensorInfo, payload: seq<byte>, i: nat)
    requires catalog.tensorDataOffset <= U64_MAX && t.offset <= U64_MAX && t.byteSize <= U64_MAX
    requires TensorPayload(catalog, file, t) == Ok(payload)
    requires TensorF32(catalog, file, t).Ok? && i < |TensorF32(catalog, file, t).value|
    ensures
      var size := ElementSize(t.kind);
      && 0 < size && i * size + size <= |payload|
      && TensorF32(catalog, file, t).value[i]
         == Input(FromLittleEndian(payload[i * size..i * size + size]) + Pow256(4) * t.kind)
  {
    hide ElementSize, TensorPayload, FromLittleEndian, Pow256;
    ElementInside(|payload|, ElementSize(t.kind), i);
  }

  lemma {:induction false} FloatsAreCells(m: Model, t: TensorInfo)
    requires LoadedModel(m) && t in m.catalog.tensors
    ensures CellsOf(m, t, Floats(m, t))
  {
    hide Product, WellFormedCatalog, LocatedManifest, ValidConfig, ElementSize, TensorPayload, FromLittleEndian,
         TensorF32, CellAt, Pow256;
    PayloadFound(m.catalog, m.file, DEFAULT_LIMITS, t);
    FloatsOfTensor(m.catalog, m.file, DEFAULT_LIMITS, t);
    KindSupported(m.catalog, |m.file|, DEFAULT_LIMITS, t);
    Pow256Values();
    var size, begin := ElementSize(t.kind), m.catalog.tensorDataOffset + t.offset;
    var xs := Floats(m, t);
    forall i | 0 <= i < |xs|
      ensures begin <= CellAt(begin, i, size) && CellAt(begin, i, size) + size <= |m.file|
      ensures xs[i] == Input(FromLittleEndian(m.file[CellAt(begin, i, size)..CellAt(begin, i, size) + size])
                             + 0x1_0000_0000 * t.kind)
    {
      FloatCell(m.catalog, m.file, t, m.file[begin..begin + t.byteSize], i);
      SliceOfSlice(m.file, begin, |xs|, i, size);
      CellInside(begin, i, size, |xs|);
    }
  }

  lemma {:induction false} CellInside(begin: nat, i: nat, size: nat, n: nat)
    requires i < n
    ensures begin <= CellAt(begin, i, size) && CellAt(begin, i, size) + size <= begin + n * size
  {
    MulLe(i + 1, n, size);
  }

  lemma {:induction false} LocatedRead(m: Model, t: TensorInfo, name: string, dimensions: seq<nat>)
    requires LoadedModel(m) && Located(m.catalog, t, name, dimensions)
    ensures ReadFrom(m, name, dimensions, Floats(m, t))
  {
    hide CellsOf, Floats, WellFormedCatalog, LocatedManifest, ValidConfig;
    FloatsAreCells(m, t);
  }

  lemma {:induction false} FullRead(m: Model, b: nat, t: FullTensors)
    requires LoadedModel(m) && LocatedFull(m.catalog, m.config, b, t)
    ensures FullSources(m, b, FullWeightsAt(m, t))
  {
    hide ReadFrom, Located, Floats, LoadedModel, ValidConfig;
    var c, w := m.config, WidthsOf(m.config);
    LoadedConfig(m);
    WidthsExact(c);
    Mul64Exact(w.fullQuery, 2);
    LocatedRead(m, t.query, Named(b, "attn_q.weight"), [c.hiddenSize, Mul64(w.fullQuery, 2)]);
    LocatedRead(m, t.key, Named(b, "attn_k.weight"), [c.hiddenSize, w.fullKv]);
    LocatedRead(m, t.value, Named(b, "attn_v.weight"), [c.hiddenSize, w.fullKv]);
    LocatedRead(m, t.output, Named(b, "attn_output.weight"), [w.fullQuery, c.hiddenSize]);
    LocatedRead(m, t.queryNorm, Named(b, "attn_q_norm.weight"), [c.fullHeadDim]);
    LocatedRead(m, t.keyNorm, Named(b, "attn_k_norm.weight"), [c.fullHeadDim]);
  }

  lemma {:induction false} LinearRead(m: Model, b: nat, t: LinearTensors)
    requires LoadedModel(m) && LocatedLinear(m.catalog, m.config, b, t)
    ensures LinearSources(m, b, LinearWeightsAt(m, t))
  {
    hide ReadFrom, Located, Floats, LoadedModel, ValidConfig, Mul64, Add64;
    var c, w := m.config, WidthsOf(m.config);
    LoadedConfig(m);
    WidthsExact(c);
    LocatedRead(m, t.qkv, Named(b, "attn_qkv.weight"), [c.hiddenSize, w.linearQkv]);
    LocatedRead(m, t.gate, Named(b, "attn_gate.weight"), [c.hiddenSize, w.linearValue]);
    LocatedRead(m, t.convolution, Named(b, "ssm_conv1d.weight"), [c.convolutionWidth, w.linearQkv]);
    LocatedRead(m, t.timeStepBias, Named(b, "ssm_dt.bias"), [c.linearValueHeads]);
    LocatedRead(m, t.recurrentA, Named(b, "ssm_a"), [c.linearValueHeads]);
    LocatedRead(m, t.beta, Named(b, "ssm_beta.weight"), [c.hiddenSize, c.linearValueHeads]);
    LocatedRead(m, t.alpha, Named(b, "ssm_alpha.weight"), [c.hiddenSize, c.linearValueHeads]);
    LocatedRead(m, t.outputNorm, Named(b, "ssm_norm.weight"), [c.linearHeadDim]);
    LocatedRead(m, t.output, Named(b, "ssm_out.weight"), [w.linearValue, c.hiddenSize]);
  }

  lemma {:induction false} LayerRead(m: Model, b: nat)
    requires LoadedModel(m) && b < |m.manifest.layers|
    ensures LayerSources(m, b, LayerWeightsAt(m, b))
  {
    hide ReadFrom, Floats, WellFormedCatalog, ValidConfig, FullSources, LinearSources,
         LocatedFull, LocatedLinear, FullWeightsAt, LinearWeightsAt;
    var c, layer := m.config, m.manifest.layers[b];
    assert LocatedLayer(m.catalog, c, b, layer);
    LocatedRead(m, layer.common.inputNorm, Named(b, "attn_norm.weight"), [c.hiddenSize]);
    LocatedRead(m, layer.common.postAttentionNorm, Named(b, "post_attention_norm.weight"), [c.hiddenSize]);
    LocatedRead(m, layer.common.ffnGate, Named(b, "ffn_gate.weight"), [c.hiddenSize, c.intermediateSize]);
    LocatedRead(m, layer.common.ffnUp, Named(b, "ffn_up.weight"), [c.hiddenSize, c.intermediateSize]);
    LocatedRead(m, layer.common.ffnDown, Named(b, "ffn_down.weight"), [c.intermediateSize, c.hiddenSize]);
    match layer.mixer
    case FullBranch(t) => FullRead(m, b, t);
    case LinearBranch(t) => LinearRead(m, b, t);
  }

  /** Every field of every block, and the three edge tensors, hold the cells of the tensor the file
      keeps under that field's own name. */
  lemma {:induction false} WeightsRead(m: Model)
    requires LoadedModel(m)
    ensures NetworkSources(m, WeightsOf(m))
  {
    hide ReadFrom, Floats, WellFormedCatalog, ValidConfig, LayerSources, LayerWeightsAt;
    var c, w := m.config, WeightsOf(m);
    LocatedRead(m, m.manifest.tokenEmbedding, "token_embd.weight", [c.hiddenSize, c.vocabularySize]);
    LocatedRead(m, m.manifest.outputNorm, "output_norm.weight", [c.hiddenSize]);
    LocatedRead(m, m.manifest.output, "output.weight", [c.hiddenSize, c.vocabularySize]);
    forall b | 0 <= b < |w.layers|
      ensures LayerSources(m, b, w.layers[b]) && (w.layers[b].mixer.FullMixer? <==> c.blocks[b].kind.FullAttention?)
    {
      LayerRead(m, b);
      LayerWeightsFit(m, b);
    }
  }

  // ----- and no other weights are -----

  lemma {:induction false} CellsUnique(m: Model, t: TensorInfo, xs: seq<Scalar>, ys: seq<Scalar>)
    requires CellsOf(m, t, xs) && CellsOf(m, t, ys)
    ensures xs == ys
  {
    hide FromLittleEndian, ElementSize;
    SameFactor(ElementSize(t.kind), |xs|, |ys|);
  }

  lemma {:induction false} ReadUnique(m: Model, name: string, dimensions: seq<nat>, xs: seq<Scalar>, ys: seq<Scalar>)
    requires LoadedModel(m) && ReadFrom(m, name, dimensions, xs) && ReadFrom(m, name, dimensions, ys)
    ensures xs == ys
  {
    hide CellsOf, WellFormedTensor, WellFormedValue, ValidKey, ValidConfig, LocatedManifest, Ascii;
    var s :| s in m.catalog.tensors && s.name == Ascii(name) && s.dimensions == dimensions && CellsOf(m, s, xs);
    var t :| t in m.catalog.tensors && t.name == Ascii(name) && t.dimensions == dimensions && CellsOf(m, t, ys);
    var i :| 0 <= i < |m.catalog.tensors| && m.catalog.tensors[i] == s;
    var j :| 0 <= j < |m.catalog.tensors| && m.catalog.tensors[j] == t;
    assert i == j;
    CellsUnique(m, s, xs, ys);
  }

  lemma {:induction false} FullUnique(m: Model, b: nat, v: FullMixerWeights, w: FullMixerWeights)
    requires LoadedModel(m) && FullSources(m, b, v) && FullSources(m, b, w)
    ensures v == w
  {
    hide LoadedModel, ReadFrom, Named;
    var c := m.config;
    var queries, kvs := c.fullHeads * c.fullHeadDim, c.fullKvHeads * c.fullHeadDim;
    ReadUnique(m, Named(b, "attn_q.weight"), [c.hiddenSize, 2 * queries], v.query, w.query);
    ReadUnique(m, Named(b, "attn_k.weight"), [c.hiddenSize, kvs], v.key, w.key);
    ReadUnique(m, Named(b, "attn_v.weight"), [c.hiddenSize, kvs], v.value, w.value);
    ReadUnique(m, Named(b, "attn_output.weight"), [queries, c.hiddenSize], v.output, w.output);
    ReadUnique(m, Named(b, "attn_q_norm.weight"), [c.fullHeadDim], v.queryNorm, w.queryNorm);
    ReadUnique(m, Named(b, "attn_k_norm.weight"), [c.fullHeadDim], v.keyNorm, w.keyNorm);
  }

  lemma {:induction false} LinearUnique(m: Model, b: nat, v: LinearMixerWeights, w: LinearMixerWeights)
    requires LoadedModel(m) && LinearSources(m, b, v) && LinearSources(m, b, w)
    ensures v == w
  {
    hide LoadedModel, ReadFrom, Named;
    var c := m.config;
    var keys, values := c.linearKeyHeads * c.linearHeadDim, c.linearValueHeads * c.linearHeadDim;
    ReadUnique(m, Named(b, "attn_qkv.weight"), [c.hiddenSize, keys + keys + values], v.qkv, w.qkv);
    ReadUnique(m, Named(b, "attn_gate.weight"), [c.hiddenSize, values], v.gate, w.gate);
    ReadUnique(m, Named(b, "ssm_beta.weight"), [c.hiddenSize, c.linearValueHeads], v.beta, w.beta);
    ReadUnique(m, Named(b, "ssm_alpha.weight"), [c.hiddenSize, c.linearValueHeads], v.alpha, w.alpha);
    ReadUnique(m, Named(b, "ssm_conv1d.weight"), [c.convolutionWidth, keys + keys + values], v.delta.conv, w.delta.conv);
    ReadUnique(m, Named(b, "ssm_a"), [c.linearValueHeads], v.delta.recurrentA, w.delta.recurrentA);
    ReadUnique(m, Named(b, "ssm_dt.bias"), [c.linearValueHeads], v.delta.dtBias, w.delta.dtBias);
    ReadUnique(m, Named(b, "ssm_norm.weight"), [c.linearHeadDim], v.delta.outputNorm, w.delta.outputNorm);
    ReadUnique(m, Named(b, "ssm_out.weight"), [values, c.hiddenSize], v.output, w.output);
  }

  lemma {:induction false} LayerUnique(m: Model, b: nat, v: LayerWeights, w: LayerWeights)
    requires LoadedModel(m) && LayerSources(m, b, v) && LayerSources(m, b, w)
    requires v.mixer.FullMixer? <==> w.mixer.FullMixer?
    ensures v == w
  {
    hide LoadedModel, ReadFrom, Named, FullSources, LinearSources;
    var c := m.config;
    ReadUnique(m, Named(b, "attn_norm.weight"), [c.hiddenSize], v.inputNorm, w.inputNorm);
    ReadUnique(m, Named(b, "post_attention_norm.weight"), [c.hiddenSize], v.postNorm, w.postNorm);
    ReadUnique(m, Named(b, "ffn_gate.weight"), [c.hiddenSize, c.intermediateSize], v.ffnGate, w.ffnGate);
    ReadUnique(m, Named(b, "ffn_up.weight"), [c.hiddenSize, c.intermediateSize], v.ffnUp, w.ffnUp);
    ReadUnique(m, Named(b, "ffn_down.weight"), [c.intermediateSize, c.hiddenSize], v.ffnDown, w.ffnDown);
    match v.mixer
    case FullMixer(full) => FullUnique(m, b, full, w.mixer.full);
    case LinearMixer(linear) => LinearUnique(m, b, linear, w.mixer.linear);
  }

  /** The file leaves no choice: weights read from the tensors of those names are the executor's. */
  lemma {:induction false} WeightsUnique(m: Model, w: NetworkWeights)
    requires LoadedModel(m)
    ensures NetworkSources(m, w) <==> w == WeightsOf(m)
  {
    hide LoadedModel, ReadFrom, LayerSources, WeightsOf;
    WeightsRead(m);
    var c, v := m.config, WeightsOf(m);
    if NetworkSources(m, w) {
      ReadUnique(m, "token_embd.weight", [c.hiddenSize, c.vocabularySize], v.embedding, w.embedding);
      ReadUnique(m, "output_norm.weight", [c.hiddenSize], v.outputNorm, w.outputNorm);
      ReadUnique(m, "output.weight", [c.hiddenSize, c.vocabularySize], v.output, w.output);
      forall b | 0 <= b < |w.layers|
        ensures v.layers[b] == w.layers[b]
      {
        LayerUnique(m, b, v.layers[b], w.layers[b]);
      }
      assert v.layers == w.layers;
    }
  }
}
