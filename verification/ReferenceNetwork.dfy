/** The CPU reference network as a function of token rows. */
module ReferenceNetwork {
  import opened Matrix
  import opened Scalars
  import opened Kernels
  import opened Attention
  import opened DeltaNet
  import opened Qwen35Config

  // ----- weights as the executor reads them -----

  datatype FullMixerWeights = FullMixerWeights(
    query: seq<Scalar>, key: seq<Scalar>, value: seq<Scalar>, output: seq<Scalar>,
    queryNorm: seq<Scalar>, keyNorm: seq<Scalar>)

  datatype LinearMixerWeights = LinearMixerWeights(
    qkv: seq<Scalar>, gate: seq<Scalar>, beta: seq<Scalar>, alpha: seq<Scalar>,
    delta: DeltaWeights, output: seq<Scalar>)

  datatype MixerWeights = FullMixer(full: FullMixerWeights) | LinearMixer(linear: LinearMixerWeights)

  datatype LayerWeights = LayerWeights(
    inputNorm: seq<Scalar>, postNorm: seq<Scalar>,
    ffnGate: seq<Scalar>, ffnUp: seq<Scalar>, ffnDown: seq<Scalar>, mixer: MixerWeights)

  function Epsilon(c: Config): Scalar { Input(c.epsilon) }

  // ----- arguments and widths -----

  function DeltaArgsOf(c: Config, tokens: nat): DeltaArgs {
    DeltaArgs(tokens, c.hiddenSize, c.linearKeyHeads, c.linearValueHeads, c.linearHeadDim, c.linearHeadDim,
              c.convolutionWidth, Epsilon(c))
  }

  function FullArgsOf(c: Config, tokens: nat): FullArgs {
    FullArgs(tokens, c.hiddenSize, c.fullHeads, c.fullKvHeads, c.fullHeadDim, c.rotaryDim, 0, Input(c.ropeBase), Epsilon(c))
  }

  function QkvWidth(c: Config): nat { DeltaArgsOf(c, 1).ConvDim() }

  function ValueWidth(c: Config): nat { DeltaArgsOf(c, 1).ValueSize() }

  function QueryWidth(c: Config): nat { FullArgsOf(c, 1).QSize() }

  function KvWidth(c: Config): nat { FullArgsOf(c, 1).KvSize() }

  // ----- what the shapes must be -----

  predicate FullFits(c: Config, w: FullMixerWeights) {
    && FullArgsOf(c, 1).Valid()
    && |w.query| == Offset(QueryWidth(c) + QueryWidth(c), c.hiddenSize)
    && |w.key| == Offset(KvWidth(c), c.hiddenSize)
    && |w.value| == Offset(KvWidth(c), c.hiddenSize)
    && |w.output| == Offset(c.hiddenSize, QueryWidth(c))
    && |w.queryNorm| == c.fullHeadDim && |w.keyNorm| == c.fullHeadDim
  }

  predicate LinearFits(c: Config, w: LinearMixerWeights) {
    && DeltaArgsOf(c, 1).Valid()
    && |w.qkv| == Offset(QkvWidth(c), c.hiddenSize)
    && |w.beta| == Offset(c.linearValueHeads, c.hiddenSize)
    && |w.alpha| == Offset(c.linearValueHeads, c.hiddenSize)
    && |w.gate| == Offset(ValueWidth(c), c.hiddenSize)
    && FitsDelta(DeltaArgsOf(c, 1), w.delta)
    && |w.output| == Offset(c.hiddenSize, ValueWidth(c))
  }

  predicate MixerFits(c: Config, w: MixerWeights) {
    match w
    case FullMixer(full) => FullFits(c, full)
    case LinearMixer(linear) => LinearFits(c, linear)
  }

  predicate LayerFits(c: Config, w: LayerWeights) {
    && c.hiddenSize > 0
    && |w.inputNorm| == c.hiddenSize && |w.postNorm| == c.hiddenSize
    && |w.ffnGate| == Offset(c.intermediateSize, c.hiddenSize)
    && |w.ffnUp| == Offset(c.intermediateSize, c.hiddenSize)
    && |w.ffnDown| == Offset(c.hiddenSize, c.intermediateSize)
    && MixerFits(c, w.mixer)
  }

  // ----- full attention mixer -----

  /** Query and gate come interleaved, one head after another; these take them apart. */
  function QueryPart(row: seq<Scalar>, heads: nat, dim: nat): (q: seq<Scalar>)
    requires |row| == Offset(heads, dim + dim)
    ensures |q| == Offset(heads, dim)
  {
    Flatten(seq(heads, h requires 0 <= h < heads => Row(row, heads, dim + dim, h)[..dim]), dim)
  }

  function GatePart(row: seq<Scalar>, heads: nat, dim: nat): (g: seq<Scalar>)
    requires |row| == Offset(heads, dim + dim)
    ensures |g| == Offset(heads, dim)
  {
    Flatten(seq(heads, h requires 0 <= h < heads => Row(row, heads, dim + dim, h)[dim..]), dim)
  }

  lemma {:induction false} OffsetDouble(n: nat, w: nat)
    ensures Offset(n, w + w) == Offset(n, w) + Offset(n, w)
    ensures Offset(n + n, w) == Offset(n, w) + Offset(n, w)
  {
    OffsetAdd(n, n, w);
    if n > 0 {
      OffsetDouble(n - 1, w);
    }
  }

  function PackFullRow(c: Config, w: FullMixerWeights, x: seq<Scalar>): (row: seq<Scalar>)
    requires FullFits(c, w) && |x| == c.hiddenSize
    ensures |row| == FullArgsOf(c, 1).Stride()
  {
    var h := c.hiddenSize;
    OffsetDouble(c.fullHeads, c.fullHeadDim);
    var queryGate := LinearRow(x, Rows(w.query, QueryWidth(c) + QueryWidth(c), h));
    QueryPart(queryGate, c.fullHeads, c.fullHeadDim)
    + LinearRow(x, Rows(w.key, KvWidth(c), h))
    + LinearRow(x, Rows(w.value, KvWidth(c), h))
    + GatePart(queryGate, c.fullHeads, c.fullHeadDim)
  }

  function PackFull(c: Config, w: FullMixerWeights, xs: seq<seq<Scalar>>): (rows: seq<seq<Scalar>>)
    requires FullFits(c, w) && forall t :: 0 <= t < |xs| ==> |xs[t]| == c.hiddenSize
    ensures |rows| == |xs| && forall t :: 0 <= t < |rows| ==> |rows[t]| == FullArgsOf(c, 1).Stride()
  {
    seq(|xs|, t requires 0 <= t < |xs| => PackFullRow(c, w, xs[t]))
  }

  /** The output weight is transposed before the mixer reads it input-major. */
  function FullWeightsOf(c: Config, w: FullMixerWeights): (fw: FullWeights)
    requires FullFits(c, w)
    ensures FitsWeights(FullArgsOf(c, 1), fw)
  {
    var h := c.hiddenSize;
    FullWeights(w.queryNorm, w.keyNorm, Flatten(TransposeRows(Rows(w.output, h, QueryWidth(c)), QueryWidth(c)), h))
  }

  function FullMixerRows(c: Config, w: FullMixerWeights, xs: seq<seq<Scalar>>): (ys: seq<seq<Scalar>>)
    requires FullFits(c, w) && |xs| > 0 && forall t :: 0 <= t < |xs| ==> |xs[t]| == c.hiddenSize
    ensures |ys| == |xs| && forall t :: 0 <= t < |ys| ==> |ys[t]| == c.hiddenSize
  {
    FullArgsTokens(c, |xs|);
    AttentionRows(FullArgsOf(c, |xs|), FullWeightsOf(c, w), PackFull(c, w, xs))
  }

  lemma FullArgsTokens(c: Config, tokens: nat)
    requires tokens > 0
    ensures FullArgsOf(c, tokens).Valid() == FullArgsOf(c, 1).Valid()
    ensures FullArgsOf(c, tokens).Stride() == FullArgsOf(c, 1).Stride()
  {
  }

  // ----- linear (gated delta) mixer -----

  function PackLinearRow(c: Config, w: LinearMixerWeights, x: seq<Scalar>): (row: seq<Scalar>)
    requires LinearFits(c, w) && |x| == c.hiddenSize
    ensures |row| == DeltaArgsOf(c, 1).Stride()
  {
    var h := c.hiddenSize;
    LinearRow(x, Rows(w.qkv, QkvWidth(c), h))
    + LinearRow(x, Rows(w.beta, c.linearValueHeads, h))
    + LinearRow(x, Rows(w.alpha, c.linearValueHeads, h))
    + LinearRow(x, Rows(w.gate, ValueWidth(c), h))
  }

  function PackLinear(c: Config, w: LinearMixerWeights, xs: seq<seq<Scalar>>): (rows: seq<seq<Scalar>>)
    requires LinearFits(c, w) && forall t :: 0 <= t < |xs| ==> |xs[t]| == c.hiddenSize
    ensures |rows| == |xs| && forall t :: 0 <= t < |rows| ==> |rows[t]| == DeltaArgsOf(c, 1).Stride()
  {
    seq(|xs|, t requires 0 <= t < |xs| => PackLinearRow(c, w, xs[t]))
  }

  function LinearMixerRows(c: Config, w: LinearMixerWeights, xs: seq<seq<Scalar>>): (ys: seq<seq<Scalar>>)
    requires LinearFits(c, w) && |xs| > 0 && forall t :: 0 <= t < |xs| ==> |xs[t]| == c.hiddenSize
    ensures |ys| == |xs| && forall t :: 0 <= t < |ys| ==> |ys[t]| == c.hiddenSize
  {
    var args := DeltaArgsOf(c, |xs|);
    var rows := RunRows(args, w.delta, ZeroMemory(args), PackLinear(c, w, xs));
    LinearRows(rows, c.hiddenSize, Rows(w.output, c.hiddenSize, ValueWidth(c)))
  }

  // ----- a layer, and the stack -----

  function MixerRows(c: Config, w: MixerWeights, xs: seq<seq<Scalar>>): (ys: seq<seq<Scalar>>)
    requires MixerFits(c, w) && |xs| > 0 && forall t :: 0 <= t < |xs| ==> |xs[t]| == c.hiddenSize
    ensures |ys| == |xs| && forall t :: 0 <= t < |ys| ==> |ys[t]| == c.hiddenSize
  {
    match w
    case FullMixer(full) => FullMixerRows(c, full, xs)
    case LinearMixer(linear) => LinearMixerRows(c, linear, xs)
  }

  function Activate(gate: seq<Scalar>, up: seq<Scalar>): (y: seq<Scalar>)
    requires |gate| == |up|
    ensures |y| == |gate|
  {
    seq(|gate|, i requires 0 <= i < |gate| => Mul(Silu(gate[i]), up[i]))
  }

  function FeedForwardRow(c: Config, w: LayerWeights, x: seq<Scalar>): (y: seq<Scalar>)
    requires LayerFits(c, w) && |x| == c.hiddenSize
    ensures |y| == c.hiddenSize
  {
    var gate := LinearRow(x, Rows(w.ffnGate, c.intermediateSize, c.hiddenSize));
    var up := LinearRow(x, Rows(w.ffnUp, c.intermediateSize, c.hiddenSize));
    LinearRow(Activate(gate, up), Rows(w.ffnDown, c.hiddenSize, c.intermediateSize))
  }

  function FeedForwardRows(c: Config, w: LayerWeights, xs: seq<seq<Scalar>>): (ys: seq<seq<Scalar>>)
    requires LayerFits(c, w) && forall t :: 0 <= t < |xs| ==> |xs[t]| == c.hiddenSize
    ensures |ys| == |xs| && forall t :: 0 <= t < |ys| ==> |ys[t]| == c.hiddenSize
  {
    seq(|xs|, t requires 0 <= t < |xs| => FeedForwardRow(c, w, xs[t]))
  }

  /** The hidden rows after the mixer's residual. */
  function Mixed(c: Config, w: LayerWeights, xs: seq<seq<Scalar>>): (ys: seq<seq<Scalar>>)
    requires LayerFits(c, w) && |xs| > 0 && forall t :: 0 <= t < |xs| ==> |xs[t]| == c.hiddenSize
    ensures |ys| == |xs| && forall t :: 0 <= t < |ys| ==> |ys[t]| == c.hiddenSize
  {
    AddRows(xs, MixerRows(c, w.mixer, RmsRows(xs, c.hiddenSize, w.inputNorm, Epsilon(c))), c.hiddenSize)
  }

  function LayerRows(c: Config, w: LayerWeights, xs: seq<seq<Scalar>>): (ys: seq<seq<Scalar>>)
    requires LayerFits(c, w) && |xs| > 0 && forall t :: 0 <= t < |xs| ==> |xs[t]| == c.hiddenSize
    ensures |ys| == |xs| && forall t :: 0 <= t < |ys| ==> |ys[t]| == c.hiddenSize
  {
    var mid := Mixed(c, w, xs);
    AddRows(mid, FeedForwardRows(c, w, RmsRows(mid, c.hiddenSize, w.postNorm, Epsilon(c))), c.hiddenSize)
  }

  /** The hidden rows after the first `n` layers. */
  function StackRows(c: Config, layers: seq<LayerWeights>, xs: seq<seq<Scalar>>, n: nat): (ys: seq<seq<Scalar>>)
    requires n <= |layers| && forall l :: 0 <= l < n ==> LayerFits(c, layers[l])
    requires |xs| > 0 && forall t :: 0 <= t < |xs| ==> |xs[t]| == c.hiddenSize
    ensures |ys| == |xs| && forall t :: 0 <= t < |ys| ==> |ys[t]| == c.hiddenSize
  {
    if n == 0 then xs else LayerRows(c, layers[n - 1], StackRows(c, layers, xs, n - 1))
  }

  datatype NetworkWeights = NetworkWeights(
    embedding: seq<Scalar>, layers: seq<LayerWeights>, outputNorm: seq<Scalar>, output: seq<Scalar>)

  predicate EdgesFit(c: Config, w: NetworkWeights) {
    && |w.embedding| == Offset(c.vocabularySize, c.hiddenSize)
    && |w.outputNorm| == c.hiddenSize
    && |w.output| == Offset(c.vocabularySize, c.hiddenSize)
  }

  predicate NetworkFits(c: Config, w: NetworkWeights) {
    EdgesFit(c, w) && forall l :: 0 <= l < |w.layers| ==> LayerFits(c, w.layers[l])
  }

  function Embed(c: Config, w: NetworkWeights, tokens: seq<int>): (xs: seq<seq<Scalar>>)
    requires EdgesFit(c, w) && InVocabulary(tokens, c.vocabularySize)
    ensures |xs| == |tokens| && forall t :: 0 <= t < |xs| ==> |xs[t]| == c.hiddenSize
  {
    seq(|tokens|, t requires 0 <= t < |tokens| => Row(w.embedding, c.vocabularySize, c.hiddenSize, tokens[t]))
  }

  /** Final norm and output projection of one hidden row. */
  function LogitsOf(c: Config, w: NetworkWeights, x: seq<Scalar>): (y: seq<Scalar>)
    requires EdgesFit(c, w) && |x| == c.hiddenSize
    ensures |y| == c.vocabularySize
  {
    LinearRow(RmsRow(x, w.outputNorm, Epsilon(c)), Rows(w.output, c.vocabularySize, c.hiddenSize))
  }

  /** Hidden rows of a token list after `n` layers. */
  function Hidden(c: Config, w: NetworkWeights, tokens: seq<int>, n: nat): (xs: seq<seq<Scalar>>)
    requires NetworkFits(c, w) && InVocabulary(tokens, c.vocabularySize) && |tokens| > 0 && n <= |w.layers|
    ensures |xs| == |tokens| && forall t :: 0 <= t < |xs| ==> |xs[t]| == c.hiddenSize
  {
    StackRows(c, w.layers, Embed(c, w, tokens), n)
  }

  function NetworkLogits(c: Config, w: NetworkWeights, tokens: seq<int>): (y: seq<Scalar>)
    requires NetworkFits(c, w) && InVocabulary(tokens, c.vocabularySize) && |tokens| > 0
    ensures |y| == c.vocabularySize
  {
    LogitsOf(c, w, Hidden(c, w, tokens, |w.layers|)[|tokens| - 1])
  }
}
