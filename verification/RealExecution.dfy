/** The whole reference, read over the reals, is the plain network: what flat buffers, packing, running state
    and shifted exponentials compute is what the definitions of the parts say. */
module RealExecution {
  import opened Matrix
  import opened Scalars
  import opened Readings
  import opened Kernels
  import opened Qwen35Config
  import opened ReferenceNetwork
  import opened RealNetwork
  import opened RealKernels
  import opened RealAttention
  import opened RealDelta

  lemma {:induction false} MixerReal(rd: Reading, c: Config, w: MixerWeights, xs: seq<seq<Scalar>>, t: nat)
    requires Lawful(rd) && ExpAdds(rd)
    requires MixerFits(c, w) && t < |xs| && Sized(c, xs)
    ensures Wide(Vecs(rd, xs), c.hiddenSize)
    ensures Vec(rd, MixerRows(c, w, xs)[t]) == MixerAt(rd, c, w, Vecs(rd, xs), t)
  {
    hide Vec, Vecs, FullFits, LinearFits, FullMixerRows, LinearMixerRows, FullAt, LinearAt, Lawful, ExpAdds;
    match w
    case FullMixer(full) => FullMixerReal(rd, c, full, xs, t);
    case LinearMixer(linear) => LinearMixerReal(rd, c, linear, xs, t);
  }

  lemma {:induction false} NormedReal(rd: Reading, c: Config, w: seq<Scalar>, xs: seq<seq<Scalar>>)
    requires |w| == c.hiddenSize && Sized(c, xs)
    ensures Vecs(rd, RmsRows(xs, c.hiddenSize, w, Epsilon(c)))
            == seq(|xs|, j requires 0 <= j < |xs| => Rms(rd, Vecs(rd, xs)[j], Vec(rd, w), rd.stored(c.epsilon)))
  {
    hide Vec, RmsRow, Rms;
    EvalConfig(rd, c);
    forall j | 0 <= j < |xs|
      ensures Vec(rd, RmsRow(xs[j], w, Epsilon(c))) == Rms(rd, Vec(rd, xs[j]), Vec(rd, w), rd.stored(c.epsilon))
    {
      RmsReal(rd, xs[j], w, Epsilon(c));
    }
  }

  /** A token's row after the mixer and its residual. */
  lemma {:induction false} MixedReal(rd: Reading, c: Config, w: LayerWeights, xs: seq<seq<Scalar>>, t: nat)
    requires Lawful(rd) && ExpAdds(rd)
    requires LayerFits(c, w) && t < |xs| && Sized(c, xs)
    ensures Wide(Vecs(rd, xs), c.hiddenSize)
    ensures Vec(rd, Mixed(c, w, xs)[t]) == MixedAt(rd, c, w, Vecs(rd, xs), t)
  {
    hide Vec, Vecs, MixerFits, MixerRows, RmsRows, Rms, MixerAt, AddRow, Sum, Offset, Lawful, ExpAdds;
    var normed := RmsRows(xs, c.hiddenSize, w.inputNorm, Epsilon(c));
    NormedReal(rd, c, w.inputNorm, xs);
    MixerReal(rd, c, w.mixer, normed, t);
    SumReal(rd, xs[t], MixerRows(c, w.mixer, normed)[t]);
  }

  /** A layer takes each token's row where the plain layer takes it. */
  lemma {:induction false} LayerReal(rd: Reading, c: Config, w: LayerWeights, xs: seq<seq<Scalar>>, t: nat)
    requires Lawful(rd) && ExpAdds(rd)
    requires LayerFits(c, w) && t < |xs| && Sized(c, xs)
    ensures Wide(Vecs(rd, xs), c.hiddenSize)
    ensures Vec(rd, LayerRows(c, w, xs)[t]) == LayerAt(rd, c, w, Vecs(rd, xs), t)
  {
    hide Vec, Vecs, MixerFits, Mixed, MixedAt, RmsRow, Rms, FeedForwardRow, FeedForward, AddRow, Sum, Offset, Lawful, ExpAdds;
    var mid := Mixed(c, w, xs)[t];
    MixedReal(rd, c, w, xs, t);
    EvalConfig(rd, c);
    RmsReal(rd, mid, w.postNorm, Epsilon(c));
    var normed := RmsRow(mid, w.postNorm, Epsilon(c));
    FeedForwardReal(rd, c, w, normed);
    SumReal(rd, mid, FeedForwardRow(c, w, normed));
  }

  lemma {:induction false} EmbedReal(rd: Reading, c: Config, w: NetworkWeights, tokens: seq<int>)
    requires NetworkFits(c, w) && InVocabulary(tokens, c.vocabularySize)
    ensures Vecs(rd, Embed(c, w, tokens)) == HiddenAfter(rd, c, w, tokens, 0)
  {
    hide Vec, LayerFits, Row, Offset;
    forall t | 0 <= t < |tokens|
      ensures Vecs(rd, Embed(c, w, tokens))[t] == HiddenAfter(rd, c, w, tokens, 0)[t]
    {
      VecRow(rd, w.embedding, c.vocabularySize, c.hiddenSize, tokens[t]);
    }
  }

  lemma {:induction false} HiddenReal(rd: Reading, c: Config, w: NetworkWeights, tokens: seq<int>, n: nat)
    requires Lawful(rd) && ExpAdds(rd)
    requires NetworkFits(c, w) && InVocabulary(tokens, c.vocabularySize) && |tokens| > 0 && n <= |w.layers|
    ensures Vecs(rd, Hidden(c, w, tokens, n)) == HiddenAfter(rd, c, w, tokens, n)
  {
    hide Vec, LayerFits, LayerRows, LayerAt, Embed, EdgesFit, InVocabulary, Lawful, ExpAdds;
    if n == 0 {
      EmbedReal(rd, c, w, tokens);
    } else {
      HiddenReal(rd, c, w, tokens, n - 1);
      var xs := Hidden(c, w, tokens, n - 1);
      var left, right := Vecs(rd, Hidden(c, w, tokens, n)), HiddenAfter(rd, c, w, tokens, n);
      forall t | 0 <= t < |tokens|
        ensures left[t] == right[t]
      {
        LayerReal(rd, c, w.layers[n - 1], xs, t);
      }
    }
  }

  /** The logits of a token list, read over the reals, are those of the plain network. */
  lemma {:induction false} LogitsReal(rd: Reading, c: Config, w: NetworkWeights, tokens: seq<int>)
    requires Lawful(rd) && ExpAdds(rd)
    requires NetworkFits(c, w) && InVocabulary(tokens, c.vocabularySize) && |tokens| > 0
    ensures Vec(rd, NetworkLogits(c, w, tokens)) == LogitsAfter(rd, c, w, tokens)
  {
    hide Vec, LayerFits, Hidden, HiddenAfter, RmsRow, Rms, LinearRow, Affine, Rows, Offset, InVocabulary, Lawful, ExpAdds;
    var last := Hidden(c, w, tokens, |w.layers|)[|tokens| - 1];
    HiddenReal(rd, c, w, tokens, |w.layers|);
    EvalConfig(rd, c);
    RmsReal(rd, last, w.outputNorm, Epsilon(c));
    LinearReal(rd, RmsRow(last, w.outputNorm, Epsilon(c)), w.output, c.vocabularySize);
  }
}
