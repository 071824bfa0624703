/** What loading guarantees to the reference executor: every tensor reads with the length the
    executor demands, so a loaded model runs on every request its configuration allows. */
module ShapeSafety {
  import opened Prelude
  import opened Matrix
  import opened Scalars
  import opened Gguf
  import opened Qwen35Config
  import opened Qwen35Manifest
  import opened ModelFile
  import opened PayloadSpace
  import opened DeltaNet
  import opened ReferenceNetwork
  import opened ReferenceExecutor

  /** The floats of one of the model's tensors. */
  function Floats(m: Model, t: TensorInfo): (xs: seq<Scalar>)
    requires LoadedModel(m) && t in m.catalog.tensors
    ensures |xs| == Product(t.dimensions)
  {
    FloatsOfTensor(m.catalog, m.file, DEFAULT_LIMITS, t);
    TensorF32(m.catalog, m.file, t).value
  }

  function FullWeightsAt(m: Model, t: FullTensors): FullMixerWeights
    requires LoadedModel(m) && exists i :: LocatedFull(m.catalog, m.config, i, t)
  {
    FullMixerWeights(Floats(m, t.query), Floats(m, t.key), Floats(m, t.value), Floats(m, t.output),
                     Floats(m, t.queryNorm), Floats(m, t.keyNorm))
  }

  function LinearWeightsAt(m: Model, t: LinearTensors): LinearMixerWeights
    requires LoadedModel(m) && exists i :: LocatedLinear(m.catalog, m.config, i, t)
  {
    LinearMixerWeights(Floats(m, t.qkv), Floats(m, t.gate), Floats(m, t.beta), Floats(m, t.alpha),
                       DeltaWeights(Floats(m, t.convolution), Floats(m, t.recurrentA), Floats(m, t.timeStepBias),
                                    Floats(m, t.outputNorm)),
                       Floats(m, t.output))
  }

  function LayerWeightsAt(m: Model, l: nat): (w: LayerWeights)
    requires LoadedModel(m) && l < |m.manifest.layers|
  {
    var layer := m.manifest.layers[l];
    assert LocatedLayer(m.catalog, m.config, l, layer);
    LayerWeights(Floats(m, layer.common.inputNorm), Floats(m, layer.common.postAttentionNorm),
                 Floats(m, layer.common.ffnGate), Floats(m, layer.common.ffnUp), Floats(m, layer.common.ffnDown),
                 match layer.mixer
                 case FullBranch(t) => FullMixer(FullWeightsAt(m, t))
                 case LinearBranch(t) => LinearMixer(LinearWeightsAt(m, t)))
  }

  function WeightsOf(m: Model): (w: NetworkWeights)
    requires LoadedModel(m)
    ensures |w.layers| == |m.config.blocks|
  {
    NetworkWeights(Floats(m, m.manifest.tokenEmbedding),
                   seq(|m.manifest.layers|, l requires 0 <= l < |m.manifest.layers| => LayerWeightsAt(m, l)),
                   Floats(m, m.manifest.outputNorm), Floats(m, m.manifest.output))
  }

  // ----- lengths -----

  lemma {:induction false} ProductOfTwo(a: nat, b: nat)
    ensures Product([a, b]) == Offset(b, a)
    ensures Product([a]) == a
  {
    assert [a, b][..1] == [a] && [a][..0] == [];
    assert Product([a]) == Product([]) * a;
    OffsetIsProduct(b, a);
  }

  lemma {:induction false} FullWeightsFit(m: Model, i: nat, t: FullTensors)
    requires LoadedModel(m) && LocatedFull(m.catalog, m.config, i, t)
    ensures FullFits(m.config, FullWeightsAt(m, t))
  {
    hide Product, Offset, Floats, LoadedModel, WidthsOf, ValidConfig;
    var c, w := m.config, WidthsOf(m.config);
    LoadedConfig(m);
    FullWidths(c);
    ProductOfTwo(c.hiddenSize, Mul64(w.fullQuery, 2));
    ProductOfTwo(c.hiddenSize, w.fullKv);
    ProductOfTwo(w.fullQuery, c.hiddenSize);
    ProductOfTwo(c.fullHeadDim, 0);
  }

  lemma {:induction false} LoadedConfig(m: Model)
    requires LoadedModel(m)
    ensures ValidConfig(m.config)
  {
  }

  /** The widths the manifest checks are the widths the executor computes. */
  lemma {:induction false} FullWidths(c: Config)
    requires ValidConfig(c)
    ensures
      var w := WidthsOf(c);
      && w.fullQuery == QueryWidth(c) == c.hiddenSize
      && Mul64(w.fullQuery, 2) == QueryWidth(c) + QueryWidth(c)
      && w.fullKv == KvWidth(c)
      && FullArgsOf(c, 1).Valid()
  {
    hide Offset;
    WidthsExact(c);
    WidthsDoNotWrap(c);
    OffsetIsProduct(c.fullKvHeads, c.fullHeadDim);
  }

  lemma {:induction false} LinearWidths(c: Config)
    requires ValidConfig(c)
    ensures
      var w := WidthsOf(c);
      && w.linearValue == ValueWidth(c) == InnerSize(c) && w.linearQkv == QkvWidth(c)
      && (DeltaArgsOf(c, 1).Valid() <==> InnerSize(c) == c.hiddenSize)
  {
    hide Offset;
    WidthsExact(c);
    WidthsDoNotWrap(c);
    OffsetIsProduct(c.linearKeyHeads, c.linearHeadDim);
  }

  lemma {:induction false} LinearWeightsFit(m: Model, i: nat, t: LinearTensors)
    requires LoadedModel(m) && LocatedLinear(m.catalog, m.config, i, t)
    ensures LinearFits(m.config, LinearWeightsAt(m, t)) <==> InnerSize(m.config) == m.config.hiddenSize
    ensures |LinearWeightsAt(m, t).delta.conv| == Offset(QkvWidth(m.config), m.config.convolutionWidth) <= U64_MAX
  {
    hide Product, Offset, Floats, LoadedModel, WidthsOf, ValidConfig, ElementSize;
    var c, w := m.config, WidthsOf(m.config);
    LoadedConfig(m);
    LinearWidths(c);
    ProductOfTwo(c.hiddenSize, w.linearQkv);
    ProductOfTwo(c.hiddenSize, w.linearValue);
    ProductOfTwo(c.convolutionWidth, w.linearQkv);
    ProductOfTwo(c.linearValueHeads, 0);
    ProductOfTwo(c.hiddenSize, c.linearValueHeads);
    ProductOfTwo(c.linearHeadDim, 0);
    ProductOfTwo(w.linearValue, c.hiddenSize);
    CellsBounded(m, t.convolution);
  }

  lemma {:induction false} CellsBounded(m: Model, t: TensorInfo)
    requires LoadedModel(m) && t in m.catalog.tensors
    ensures Product(t.dimensions) <= U64_MAX
  {
    hide Product, ValidConfig, LocatedManifest;
    var i :| 0 <= i < |m.catalog.tensors| && m.catalog.tensors[i] == t;
    assert WellFormedTensor(m.catalog.tensors[i], DEFAULT_LIMITS.maxRank);
    MulLe(1, ElementSize(t.kind), Product(t.dimensions));
  }

  /** The layers that take the linear mixer need the SSM inner size to be the hidden size, which
      nothing checks before the mixer itself does. */
  ghost predicate MixersAgree(c: Config) {
    forall b :: 0 <= b < |c.blocks| && c.blocks[b].kind.LinearAttention? ==> InnerSize(c) == c.hiddenSize
  }

  lemma {:induction false} LayerWeightsFit(m: Model, l: nat)
    requires LoadedModel(m) && l < |m.manifest.layers|
    ensures |m.manifest.layers| == |m.config.blocks|
    ensures LayerWeightsAt(m, l).mixer.FullMixer? <==> m.config.blocks[l].kind.FullAttention?
    ensures LayerFits(m.config, LayerWeightsAt(m, l)) <==>
              m.config.blocks[l].kind.FullAttention? || InnerSize(m.config) == m.config.hiddenSize
    ensures LayerWeightsAt(m, l).mixer.LinearMixer? ==>
              |LayerWeightsAt(m, l).mixer.linear.delta.conv| == Offset(QkvWidth(m.config), m.config.convolutionWidth) <= U64_MAX
  {
    hide FullWeightsAt, LinearWeightsAt, FullFits, LinearFits, Product, Offset, Floats, WellFormedCatalog;
    var c, layer := m.config, m.manifest.layers[l];
    assert LocatedLayer(m.catalog, c, l, layer);
    ProductOfTwo(c.hiddenSize, 0);
    ProductOfTwo(c.hiddenSize, c.intermediateSize);
    ProductOfTwo(c.intermediateSize, c.hiddenSize);
    match layer.mixer
    case FullBranch(t) => FullWeightsFit(m, l, t);
    case LinearBranch(t) => LinearWeightsFit(m, l, t);
  }

  /** A loaded model's weights fit the network exactly when its linear layers agree with the hidden size. */
  lemma {:induction false} WeightsFit(m: Model)
    requires LoadedModel(m)
    ensures EdgesFit(m.config, WeightsOf(m))
    ensures NetworkFits(m.config, WeightsOf(m)) <==> MixersAgree(m.config)
    ensures forall l :: 0 <= l < |WeightsOf(m).layers| ==>
      (LayerFits(m.config, WeightsOf(m).layers[l]) <==>
         m.config.blocks[l].kind.FullAttention? || InnerSize(m.config) == m.config.hiddenSize)
  {
    hide LayerWeightsAt, LayerFits, Product, Offset, Floats, WellFormedCatalog, ValidConfig, InnerSize;
    var c, w := m.config, WeightsOf(m);
    ProductOfTwo(c.hiddenSize, c.vocabularySize);
    ProductOfTwo(c.hiddenSize, 0);
    forall l | 0 <= l < |w.layers|
      ensures LayerFits(c, w.layers[l]) <==> c.blocks[l].kind.FullAttention? || InnerSize(c) == c.hiddenSize
    {
      LayerWeightsFit(m, l);
    }
  }

  // ----- buffer sizes -----

  /** Floats of one packed row. */
  function PackedWidth(c: Config, kind: BlockKind): nat {
    match kind
    case FullAttention => FullArgsOf(c, 1).Stride()
    case LinearAttention => DeltaArgsOf(c, 1).Stride()
  }

  lemma {:induction false} Narrow32(a: nat, b: nat)
    requires a <= U32_MAX && b <= U32_MAX
    ensures Offset(a, b) <= U64_MAX
  {
    OffsetIsProduct(a, b);
    ProductFits(a, b);
  }

  lemma {:induction false} FullSizes(c: Config, rows: nat)
    requires ValidConfig(c) && rows <= U32_MAX
    ensures FullSizesFit(FullArgsOf(c, rows)) <==> rows * PackedWidth(c, FullAttention) <= U64_MAX
  {
    hide Offset;
    WidthsDoNotWrap(c);
    Narrow32(c.hiddenSize, c.hiddenSize);
    Narrow32(rows, c.hiddenSize);
    Narrow32(rows, KvWidth(c));
    OffsetIsProduct(rows, PackedWidth(c, FullAttention));
  }

  lemma {:induction false} DeltaSizes(c: Config, rows: nat)
    requires ValidConfig(c) && rows <= U32_MAX
    requires Offset(QkvWidth(c), c.convolutionWidth) <= U64_MAX
    ensures DeltaSizesFit(DeltaArgsOf(c, rows)) <==> rows * PackedWidth(c, LinearAttention) <= U64_MAX
  {
    hide Offset;
    WidthsDoNotWrap(c);
    HeadDimBound(c);
    Narrow32(ValueWidth(c), c.linearHeadDim);
    Narrow32(rows, c.hiddenSize);
    OffsetWider(QkvWidth(c), c.convolutionWidth - 1, c.convolutionWidth);
    OffsetIsProduct(rows, PackedWidth(c, LinearAttention));
  }

  lemma {:induction false} HeadDimBound(c: Config)
    requires ValidConfig(c)
    ensures c.linearHeadDim <= U32_MAX && c.linearValueHeads <= U32_MAX
  {
    MulLe(1, c.linearValueHeads, c.linearHeadDim);
    MulLe(1, c.linearHeadDim, c.linearValueHeads);
  }

  lemma {:induction false} OffsetWider(n: nat, v: nat, w: nat)
    requires v <= w
    ensures Offset(n, v) <= Offset(n, w)
  {
    if n > 0 {
      OffsetWider(n - 1, v, w);
    }
  }

  lemma {:induction false} LayerSizes(m: Model, l: nat, rows: nat)
    requires LoadedModel(m) && l < |m.manifest.layers| && rows <= U32_MAX
    ensures |m.manifest.layers| == |m.config.blocks|
    ensures MixerSizesFit(m.config, LayerWeightsAt(m, l).mixer, rows)
            <==> rows * PackedWidth(m.config, m.config.blocks[l].kind) <= U64_MAX
  {
    hide DeltaSizesFit, FullSizesFit, LayerWeightsAt, WellFormedCatalog, LocatedManifest, PackedWidth, QkvWidth;
    LoadedConfig(m);
    LayerWeightsFit(m, l);
    if LayerWeightsAt(m, l).mixer.FullMixer? {
      FullSizes(m.config, rows);
    } else {
      DeltaSizes(m.config, rows);
    }
  }

  lemma FullBound(h: nat, kv: nat, rows: nat)
    requires kv <= h && rows <= U32_MAX && 2 * (h * (2 * h + 2 * kv)) <= I64_MAX
    ensures rows * (2 * h + 2 * kv) <= U64_MAX
  {
    var s := 2 * h + 2 * kv;
    MulLe(s, 4 * h, s);
    assert (4 * h) * s == 4 * (h * s);
    RootBelow(s);
    ProductFits(rows, s);
  }

  lemma LinearBound(h: nat, k: nat, n: nat, rows: nat)
    requires k <= h && n <= h && rows <= U32_MAX && 2 * (h * (2 * k + 6 * h + 2 * n)) <= I64_MAX
    ensures rows * (2 * k + 2 * h + 2 * n) <= U64_MAX
  {
    var p := 2 * k + 2 * h + 2 * n;
    MulLe(p, 6 * h, 6 * p + 24 * h);
    MulLe(p, 6 * h, 4 * p);
    assert p * (6 * p + 24 * h) == 6 * (p * p) + (4 * p) * (6 * h);
    assert p * (4 * p) == 4 * (p * p);
    assert (6 * h) * (6 * p + 24 * h) == 36 * (h * (p + 4 * h));
    RootBelow(p);
    ProductFits(rows, p);
  }

  lemma RootBelow(s: nat)
    requires s * s <= U64_MAX
    ensures s <= U32_MAX
  {
    if s > U32_MAX {
      MulLe(U32_MAX + 1, s, s);
    }
  }

  /** The tensors of one layer, and of one full layer beside it, would not fit a file if a packed
      buffer of that layer passed 64 bits. */
  lemma {:induction false} PackedRowsFit(m: Model, b: nat, rows: nat)
    requires LoadedModel(m) && MixersAgree(m.config) && b < |m.config.blocks| && rows <= U32_MAX
    ensures rows * PackedWidth(m.config, m.config.blocks[b].kind) <= U64_MAX
  {
    hide WellFormedCatalog, ValidConfig, LocatedFull, LocatedLinear, LocatedCommon, InnerSize, PackedWidth;
    var c, layer := m.config, m.manifest.layers[b];
    assert LocatedLayer(m.catalog, c, b, layer);
    var f :| 0 <= f < |c.blocks| && c.blocks[f].kind.FullAttention?;
    assert LocatedLayer(m.catalog, c, f, m.manifest.layers[f]);
    FullPacked(c);
    match layer.mixer
    case FullBranch(t) =>
      FullSpace(m.catalog, |m.file|, DEFAULT_LIMITS, c, b, t);
      FullBound(c.hiddenSize, WidthsOf(c).fullKv, rows);
    case LinearBranch(t) =>
      LinearPacked(c);
      LinearSpace(m.catalog, |m.file|, DEFAULT_LIMITS, c, b, t, f, m.manifest.layers[f].mixer.full);
      LinearBound(c.hiddenSize, WidthsOf(c).linearKey, c.linearValueHeads, rows);
  }

  lemma FullPacked(c: Config)
    requires ValidConfig(c)
    ensures PackedWidth(c, FullAttention) == 2 * c.hiddenSize + 2 * WidthsOf(c).fullKv && WidthsOf(c).fullKv <= c.hiddenSize
  {
    hide Offset;
    FullWidths(c);
    WidthsDoNotWrap(c);
  }

  lemma LinearPacked(c: Config)
    requires ValidConfig(c) && InnerSize(c) == c.hiddenSize
    ensures PackedWidth(c, LinearAttention) == 2 * WidthsOf(c).linearKey + 2 * c.hiddenSize + 2 * c.linearValueHeads
    ensures WidthsOf(c).linearKey <= c.hiddenSize && c.linearValueHeads <= c.hiddenSize
  {
    hide Offset;
    WidthsExact(c);
    WidthsDoNotWrap(c);
    HeadsBelowWidth(c);
    OffsetIsProduct(c.linearKeyHeads, c.linearHeadDim);
  }

  lemma {:induction false} HeadsBelowWidth(c: Config)
    requires ValidConfig(c)
    ensures c.linearValueHeads <= InnerSize(c)
  {
    MulLe(1, c.linearHeadDim, c.linearValueHeads);
  }

  /** Every layer of a loaded model runs, for as many rows as a context can hold, exactly when the
      mixers agree: no buffer size wraps around. */
  lemma {:induction false} LayersDecide(m: Model, rows: nat)
    requires LoadedModel(m) && rows <= U32_MAX
    ensures
      var c, w := m.config, WeightsOf(m);
      (forall l :: 0 <= l < |w.layers| ==> LayerFits(c, w.layers[l]) && MixerSizesFit(c, w.layers[l].mixer, rows))
      <==> MixersAgree(c)
  {
    hide LayerWeightsAt, LayerFits, MixerSizesFit, Floats, WellFormedCatalog, ValidConfig, InnerSize, PackedWidth;
    var c, w := m.config, WeightsOf(m);
    WeightsFit(m);
    if MixersAgree(c) {
      forall l | 0 <= l < |w.layers|
        ensures MixerSizesFit(c, w.layers[l].mixer, rows)
      {
        LayerSizes(m, l, rows);
        PackedRowsFit(m, l, rows);
      }
    }
  }
}
