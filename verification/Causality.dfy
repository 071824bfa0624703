/** Causality of the whole reference stack: what is computed for a token never depends on the
    tokens after it. */
module Causality {
  import opened Matrix
  import opened Scalars
  import opened Kernels
  import opened Attention
  import opened DeltaNet
  import opened DeltaRuns
  import opened Qwen35Config
  import opened ReferenceNetwork

  lemma {:induction false} AttentionCausal(args: FullArgs, weights: FullWeights, xs: seq<seq<Scalar>>, p: nat)
    requires args.Valid() && Packed(args, xs) && FitsWeights(args, weights) && p <= |xs|
    ensures AttentionRows(args, weights, xs[..p]) == AttentionRows(args, weights, xs)[..p]
  {
    hide AttendLast;
    var short, long := AttentionRows(args, weights, xs[..p]), AttentionRows(args, weights, xs);
    forall t | 0 <= t < p
      ensures short[t] == long[t]
    {
      assert xs[..p][..t + 1] == xs[..t + 1];
    }
  }

  /** The number of tokens only says how long the buffers are; no row depends on it. */
  lemma {:induction false} AttentionIgnoresCount(args: FullArgs, weights: FullWeights, xs: seq<seq<Scalar>>, n: nat)
    requires args.Valid() && Packed(args, xs) && FitsWeights(args, weights) && n > 0
    ensures Packed(args.(tokens := n), xs)
    ensures AttentionRows(args.(tokens := n), weights, xs) == AttentionRows(args, weights, xs)
  {
    hide HeadOutput, PrepareHead, ProjectRow, Gated, Flatten, Rows;
    var counted, plain := AttentionRows(args.(tokens := n), weights, xs), AttentionRows(args, weights, xs);
    forall t | 0 <= t < |xs|
      ensures counted[t] == plain[t]
    {
      AttendIgnoresCount(args, weights, xs[..t + 1], n);
    }
  }

  lemma {:induction false} PrepareIgnoresCount(args: FullArgs, heads: seq<seq<Scalar>>, weight: seq<Scalar>, position: nat, n: nat)
    requires args.rotaryDim <= |weight| && forall h :: 0 <= h < |heads| ==> |heads[h]| == |weight|
    ensures PrepareHeads(args.(tokens := n), heads, weight, position) == PrepareHeads(args, heads, weight, position)
  {
    hide RopeRow, RmsRow;
  }

  lemma {:induction false} AttendIgnoresCount(args: FullArgs, weights: FullWeights, xs: seq<seq<Scalar>>, n: nat)
    requires args.Valid() && Packed(args, xs) && FitsWeights(args, weights) && |xs| > 0 && n > 0
    ensures Packed(args.(tokens := n), xs)
    ensures AttendLast(args.(tokens := n), weights, xs) == AttendLast(args, weights, xs)
  {
    hide HeadOutput, PrepareHeads, ProjectRow, Gated, Flatten, Rows;
    var other := args.(tokens := n);
    forall t | 0 <= t < |xs|
      ensures QueryHeads(other, weights, xs[t], t) == QueryHeads(args, weights, xs[t], t)
      ensures KeyHeads(other, weights, xs[t], t) == KeyHeads(args, weights, xs[t], t)
      ensures ValueHeads(other, xs[t]) == ValueHeads(args, xs[t])
    {
      var row := xs[t];
      PrepareIgnoresCount(args, Rows(row[..args.QSize()], args.queryHeads, args.headDim),
                          weights.queryNorm, args.positionOffset + t, n);
      PrepareIgnoresCount(args, Rows(row[args.QSize()..args.QSize() + args.KvSize()], args.kvHeads, args.headDim),
                          weights.keyNorm, args.positionOffset + t, n);
    }
    HeadsIgnoreCount(args, weights, xs, n);
  }

  lemma {:induction false} HeadsIgnoreCount(args: FullArgs, weights: FullWeights, xs: seq<seq<Scalar>>, n: nat)
    requires args.Valid() && Packed(args, xs) && FitsWeights(args, weights) && |xs| > 0 && n > 0
    requires Packed(args.(tokens := n), xs)
    requires forall t :: 0 <= t < |xs| ==>
      && QueryHeads(args.(tokens := n), weights, xs[t], t) == QueryHeads(args, weights, xs[t], t)
      && KeyHeads(args.(tokens := n), weights, xs[t], t) == KeyHeads(args, weights, xs[t], t)
      && ValueHeads(args.(tokens := n), xs[t]) == ValueHeads(args, xs[t])
    ensures AttendedHeads(args.(tokens := n), weights, xs) == AttendedHeads(args, weights, xs)
  {
    hide HeadOutput, QueryHeads, KeyHeads, ValueHeads;
    var other := args.(tokens := n);
    forall h | 0 <= h < args.queryHeads
      ensures KeysOf(other, weights, xs, args.KvHead(h)) == KeysOf(args, weights, xs, args.KvHead(h))
      ensures ValuesOf(other, xs, args.KvHead(h)) == ValuesOf(args, xs, args.KvHead(h))
      ensures other.KvHead(h) == args.KvHead(h)
    {
    }
  }

  // ----- the delta mixer -----

  lemma {:induction false} StepIgnoresCount(args: DeltaArgs, weights: DeltaWeights, memory: Memory, x: seq<Scalar>, n: nat)
    requires args.Valid() && FitsDelta(args, weights) && Fits(args, memory) && |x| == args.Stride() && n > 0
    ensures
      var other := args.(tokens := n);
      && FitsDelta(other, weights) && Fits(other, memory) && |x| == other.Stride()
      && StepMemory(other, weights, memory, x) == StepMemory(args, weights, memory, x)
      && StepRow(other, weights, memory, x) == StepRow(args, weights, memory, x)
  {
    hide ConvolveChannel, Shift, UpdateHead, Recall, L2Row, ScaleRow, RmsRow, GateRow, Flatten, Beta, Decay;
    var other := args.(tokens := n);
    var y := ConvolveAll(args, weights, memory.histories, x);
    assert ConvolveAll(other, weights, memory.histories, x) == y;
    HeadsIgnoreTokens(args, weights, memory.heads, x, y, n);
  }

  lemma {:induction false} HeadsIgnoreTokens(args: DeltaArgs, weights: DeltaWeights, heads: seq<seq<seq<Scalar>>>,
                                             x: seq<Scalar>, y: seq<Scalar>, n: nat)
    requires args.Valid() && FitsDelta(args, weights) && n > 0
    requires |x| == args.Stride() && |y| == args.ConvDim() && |heads| == args.valueHeads
    requires forall h :: 0 <= h < |heads| ==> IsMatrix(heads[h], args.keyDim, args.valueDim)
    ensures
      var other := args.(tokens := n);
      && FitsDelta(other, weights)
      && StepHeads(other, weights, heads, x, y) == StepHeads(args, weights, heads, x, y)
      && ReadHeads(other, StepHeads(args, weights, heads, x, y), y) == ReadHeads(args, StepHeads(args, weights, heads, x, y), y)
  {
    hide UpdateHead, Recall, L2Row, ScaleRow;
    var other := args.(tokens := n);
    forall h | 0 <= h < |heads|
      ensures StepHead(other, weights, heads[h], x, y, h) == StepHead(args, weights, heads[h], x, y, h)
    {
      assert Beta(other, x, h) == Beta(args, x, h);
      assert Decay(other, weights, x, h) == Decay(args, weights, x, h);
    }
    forall h | 0 <= h < args.keyHeads
      ensures QueryOf(other, y, h) == QueryOf(args, y, h)
    {
    }
  }

  lemma {:induction false} RunIgnoresCount(args: DeltaArgs, weights: DeltaWeights, memory: Memory, xs: seq<seq<Scalar>>, n: nat)
    requires args.Valid() && FitsDelta(args, weights) && Fits(args, memory) && PackedRows(args, xs) && n > 0
    ensures
      var other := args.(tokens := n);
      && FitsDelta(other, weights) && Fits(other, memory) && PackedRows(other, xs)
      && RunMemory(other, weights, memory, xs) == RunMemory(args, weights, memory, xs)
    decreases |xs|
  {
    hide StepMemory, StepRow;
    if |xs| > 0 {
      var front, last := xs[..|xs| - 1], xs[|xs| - 1];
      RunIgnoresCount(args, weights, memory, front, n);
      StepIgnoresCount(args, weights, RunMemory(args, weights, memory, front), last, n);
    }
  }

  lemma {:induction false} RunRowsIgnoreCount(args: DeltaArgs, weights: DeltaWeights, memory: Memory, xs: seq<seq<Scalar>>, n: nat)
    requires args.Valid() && FitsDelta(args, weights) && Fits(args, memory) && PackedRows(args, xs) && n > 0
    ensures
      var other := args.(tokens := n);
      && FitsDelta(other, weights) && Fits(other, memory) && PackedRows(other, xs)
      && RunRows(other, weights, memory, xs) == RunRows(args, weights, memory, xs)
  {
    hide StepMemory, StepRow, RunMemory;
    var other := args.(tokens := n);
    RunIgnoresCount(args, weights, memory, xs, n);
    var counted, plain := RunRows(other, weights, memory, xs), RunRows(args, weights, memory, xs);
    forall t | 0 <= t < |xs|
      ensures counted[t] == plain[t]
    {
      RunIgnoresCount(args, weights, memory, xs[..t], n);
      StepIgnoresCount(args, weights, RunMemory(args, weights, memory, xs[..t]), xs[t], n);
    }
  }

  // ----- the stack -----

  ghost predicate HiddenRows(c: Config, xs: seq<seq<Scalar>>) {
    forall t :: 0 <= t < |xs| ==> |xs[t]| == c.hiddenSize
  }

  lemma {:induction false} FullMixerCausal(c: Config, w: FullMixerWeights, xs: seq<seq<Scalar>>, p: nat)
    requires FullFits(c, w) && HiddenRows(c, xs) && 0 < p <= |xs|
    ensures FullMixerRows(c, w, xs[..p]) == FullMixerRows(c, w, xs)[..p]
  {
    hide PackFullRow, AttentionRows, TransposeRows;
    var args, fw, packed := FullArgsOf(c, |xs|), FullWeightsOf(c, w), PackFull(c, w, xs);
    assert PackFull(c, w, xs[..p]) == packed[..p];
    FullArgsTokens(c, |xs|);
    FullArgsTokens(c, p);
    AttentionCausal(args, fw, packed, p);
    AttentionIgnoresCount(args, fw, packed[..p], p);
    assert FullArgsOf(c, p) == args.(tokens := p);
  }

  lemma {:induction false} LinearMixerCausal(c: Config, w: LinearMixerWeights, xs: seq<seq<Scalar>>, p: nat)
    requires LinearFits(c, w) && HiddenRows(c, xs) && 0 < p <= |xs|
    ensures LinearMixerRows(c, w, xs[..p]) == LinearMixerRows(c, w, xs)[..p]
  {
    hide PackLinearRow, RunRows, LinearRow;
    var args, packed := DeltaArgsOf(c, |xs|), PackLinear(c, w, xs);
    assert PackLinear(c, w, xs[..p]) == packed[..p];
    var memory := ZeroMemory(args);
    RunRowsCausal(args, w.delta, memory, packed, p);
    RunRowsIgnoreCount(args, w.delta, memory, packed[..p], p);
    assert DeltaArgsOf(c, p) == args.(tokens := p);
    assert ZeroMemory(args.(tokens := p)) == memory;
  }

  lemma {:induction false} MixedCausal(c: Config, w: LayerWeights, xs: seq<seq<Scalar>>, p: nat)
    requires LayerFits(c, w) && HiddenRows(c, xs) && 0 < p <= |xs|
    ensures Mixed(c, w, xs[..p]) == Mixed(c, w, xs)[..p]
  {
    hide RmsRow, FullMixerRows, LinearMixerRows, AddRow, FullFits, LinearFits;
    var normed := RmsRows(xs, c.hiddenSize, w.inputNorm, Epsilon(c));
    assert RmsRows(xs[..p], c.hiddenSize, w.inputNorm, Epsilon(c)) == normed[..p];
    match w.mixer
    case FullMixer(full) => FullMixerCausal(c, full, normed, p);
    case LinearMixer(linear) => LinearMixerCausal(c, linear, normed, p);
  }

  lemma {:induction false} LayerCausal(c: Config, w: LayerWeights, xs: seq<seq<Scalar>>, p: nat)
    requires LayerFits(c, w) && HiddenRows(c, xs) && 0 < p <= |xs|
    ensures LayerRows(c, w, xs[..p]) == LayerRows(c, w, xs)[..p]
  {
    hide RmsRow, Mixed, FeedForwardRow, AddRow, MixerFits;
    MixedCausal(c, w, xs, p);
    var mid := Mixed(c, w, xs);
    var normed := RmsRows(mid, c.hiddenSize, w.postNorm, Epsilon(c));
    assert RmsRows(mid[..p], c.hiddenSize, w.postNorm, Epsilon(c)) == normed[..p];
    assert FeedForwardRows(c, w, normed[..p]) == FeedForwardRows(c, w, normed)[..p];
  }

  /** After every layer, the rows computed for a prefix are the first rows of the run on the whole list. */
  lemma {:induction false} StackCausal(c: Config, layers: seq<LayerWeights>, xs: seq<seq<Scalar>>, n: nat, p: nat)
    requires n <= |layers| && forall l :: 0 <= l < n ==> LayerFits(c, layers[l])
    requires HiddenRows(c, xs) && 0 < p <= |xs|
    ensures StackRows(c, layers, xs[..p], n) == StackRows(c, layers, xs, n)[..p]
  {
    hide LayerRows, LayerFits;
    if n > 0 {
      StackCausal(c, layers, xs, n - 1, p);
      LayerCausal(c, layers[n - 1], StackRows(c, layers, xs, n - 1), p);
    }
  }

  lemma {:induction false} HiddenCausal(c: Config, w: NetworkWeights, tokens: seq<int>, p: nat, n: nat)
    requires NetworkFits(c, w) && InVocabulary(tokens, c.vocabularySize) && 0 < p <= |tokens| && n <= |w.layers|
    ensures InVocabulary(tokens[..p], c.vocabularySize)
    ensures Hidden(c, w, tokens[..p], n) == Hidden(c, w, tokens, n)[..p]
  {
    hide StackRows, LayerFits, Row;
    assert Embed(c, w, tokens[..p]) == Embed(c, w, tokens)[..p];
    StackCausal(c, w.layers, Embed(c, w, tokens), n, p);
  }

  /** The logits for a prefix are the final norm and projection of that position's hidden row in a
      run over any continuation. */
  lemma {:induction false} LogitsCausal(c: Config, w: NetworkWeights, tokens: seq<int>, p: nat)
    requires NetworkFits(c, w) && InVocabulary(tokens, c.vocabularySize) && 0 < p <= |tokens|
    ensures InVocabulary(tokens[..p], c.vocabularySize)
    ensures NetworkLogits(c, w, tokens[..p]) == LogitsOf(c, w, Hidden(c, w, tokens, |w.layers|)[p - 1])
  {
    hide LogitsOf, Hidden, NetworkFits;
    HiddenCausal(c, w, tokens, p, |w.layers|);
  }
}
