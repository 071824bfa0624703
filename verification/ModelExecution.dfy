/** Running a loaded model on a token list. */
module ModelExecution {
  import opened Prelude
  import opened Matrix
  import opened Scalars
  import opened Kernels
  import opened FullAttention
  import opened Gguf
  import opened Qwen35Config
  import opened Qwen35Manifest
  import opened ModelFile
  import opened ReferenceNetwork
  import opened ReferenceExecutor
  import opened ShapeSafety
  import opened Causality
  import opened Readings
  import opened WeightSources
  import opened RealExecution
  import RealNetwork

  /** The requests `qwen35_execute_model` takes: some tokens, within context, of the vocabulary. */
  ghost predicate ValidRequest(c: Config, tokens: seq<int>) {
    0 < |tokens| <= c.contextLength && InVocabulary(tokens, c.vocabularySize)
  }

  method CheckTokens(c: Config, tokens: seq<int>) returns (ok: bool)
    ensures ok <==> ValidRequest(c, tokens)
    ensures ok <==> 0 < |tokens| <= c.contextLength && forall t :: 0 <= t < |tokens| ==> 0 <= tokens[t] < c.vocabularySize
  {
    if |tokens| == 0 || |tokens| > c.contextLength {
      return false;
    }
    for i := 0 to |tokens|
      invariant forall t :: 0 <= t < i ==> 0 <= tokens[t] < c.vocabularySize
    {
      if tokens[i] < 0 || tokens[i] >= c.vocabularySize {
        return false;
      }
    }
    ok := true;
  }

  method EmbedTokens(c: Config, w: NetworkWeights, tokens: seq<int>) returns (hidden: array<Scalar>)
    requires EdgesFit(c, w) && InVocabulary(tokens, c.vocabularySize)
    ensures fresh(hidden) && hidden.Length == Offset(|tokens|, c.hiddenSize)
    ensures Rows(hidden[..], |tokens|, c.hiddenSize) == Embed(c, w, tokens)
  {
    hide Rows, Offset, Row, EdgesFit;
    hidden := new Scalar[Offset(|tokens|, c.hiddenSize)](_ => Zero);
    for row := 0 to |tokens|
      invariant forall k :: 0 <= k < row ==> Rows(hidden[..], |tokens|, c.hiddenSize)[k] == Embed(c, w, tokens)[k]
    {
      EmbedToken(c, w, tokens, row, hidden);
    }
  }

  method EmbedToken(c: Config, w: NetworkWeights, tokens: seq<int>, row: nat, hidden: array<Scalar>)
    requires EdgesFit(c, w) && InVocabulary(tokens, c.vocabularySize) && row < |tokens|
    requires hidden.Length == Offset(|tokens|, c.hiddenSize)
    modifies hidden
    ensures Rows(hidden[..], |tokens|, c.hiddenSize)
            == old(Rows(hidden[..], |tokens|, c.hiddenSize))[row := Embed(c, w, tokens)[row]]
  {
    hide Rows, Offset, Splice;
    var h := c.hiddenSize;
    RowInside(c.vocabularySize, h, tokens[row]);
    SetRow(hidden[..], |tokens|, h, row, Embed(c, w, tokens)[row]);
    var source := Offset(tokens[row], h);
    CopySpan(w.embedding[source..source + h], hidden, Offset(row, h));
  }

  method RunLayers(c: Config, w: NetworkWeights, hidden: array<Scalar>, rows: nat, ghost start: seq<seq<Scalar>>)
    returns (ok: bool)
    requires ValidConfig(c) && rows > 0 && hidden.Length == Offset(rows, c.hiddenSize)
    requires start == Rows(hidden[..], rows, c.hiddenSize)
    modifies hidden
    ensures ok <==> forall l :: 0 <= l < |w.layers| ==> LayerFits(c, w.layers[l]) && MixerSizesFit(c, w.layers[l].mixer, rows)
    ensures ok ==> Rows(hidden[..], rows, c.hiddenSize) == StackRows(c, w.layers, start, |w.layers|)
  {
    hide LayerFits, MixerSizesFit, LayerRows, Rows, Offset, ValidConfig;
    for layer := 0 to |w.layers|
      invariant forall l :: 0 <= l < layer ==> LayerFits(c, w.layers[l]) && MixerSizesFit(c, w.layers[l].mixer, rows)
      invariant Rows(hidden[..], rows, c.hiddenSize) == StackRows(c, w.layers, start, layer)
    {
      ok := RunLayer(c, w.layers[layer], hidden, rows);
      if !ok {
        return;
      }
    }
    ok := true;
  }

  // ----- greedy choice -----

  /** The running maximum of `argmax`, with `greater` the float comparison. */
  function ArgmaxOf(greater: (Scalar, Scalar) -> bool, logits: seq<Scalar>, n: nat): (best: nat)
    requires 0 < n <= |logits|
    ensures best < n
  {
    if n == 1 then 0
    else
      var best := ArgmaxOf(greater, logits, n - 1);
      if greater(logits[n - 1], logits[best]) then n - 1 else best
  }

  ghost predicate StrictWeakOrder(greater: (Scalar, Scalar) -> bool) {
    && (forall x, y :: greater(x, y) ==> !greater(y, x))
    && (forall x, y, z :: greater(x, z) ==> greater(x, y) || greater(y, z))
  }

  /** Where the comparison is an order, no logit beats the chosen one, and every earlier one is beaten by it. */
  lemma {:induction false} ArgmaxIsFirstMaximum(greater: (Scalar, Scalar) -> bool, logits: seq<Scalar>, n: nat)
    requires StrictWeakOrder(greater) && 0 < n <= |logits|
    ensures
      var best := ArgmaxOf(greater, logits, n);
      && (forall i :: 0 <= i < n ==> !greater(logits[i], logits[best]))
      && (forall i :: 0 <= i < best ==> greater(logits[best], logits[i]))
  {
    if n > 1 {
      ArgmaxIsFirstMaximum(greater, logits, n - 1);
      var before, best := ArgmaxOf(greater, logits, n - 1), ArgmaxOf(greater, logits, n);
      forall i | 0 <= i < n
        ensures !greater(logits[i], logits[best])
      {
        if best == n - 1 && i < n - 1 {
          assert greater(logits[best], logits[before]) && !greater(logits[i], logits[before]);
        }
      }
      forall i | 0 <= i < best
        ensures greater(logits[best], logits[i])
      {
        if best == n - 1 {
          assert greater(logits[best], logits[before]) && !greater(logits[i], logits[before]);
        }
      }
    }
  }

  method Argmax(greater: (Scalar, Scalar) -> bool, logits: seq<Scalar>) returns (best: nat)
    requires |logits| > 0
    ensures best == ArgmaxOf(greater, logits, |logits|)
  {
    best := 0;
    for i := 1 to |logits|
      invariant best == ArgmaxOf(greater, logits, i)
    {
      if greater(logits[i], logits[best]) {
        best := i;
      }
    }
  }

  // ----- the whole execution -----

  datatype Execution = Execution(logits: seq<Scalar>, token: nat)

  /** Read over the reals, the logits are the plain network's, with every weight read from its own tensor. */
  ghost predicate PlainLogits(m: Model, tokens: seq<int>, logits: seq<Scalar>) {
    forall rd, w :: Lawful(rd) && ExpAdds(rd) && NetworkSources(m, w)
                    && NetworkFits(m.config, w) && InVocabulary(tokens, m.config.vocabularySize) && |tokens| > 0 ==>
      Vec(rd, logits) == RealNetwork.LogitsAfter(rd, m.config, w, tokens)
  }

  lemma {:induction false} LogitsArePlain(m: Model, tokens: seq<int>)
    requires LoadedModel(m) && NetworkFits(m.config, WeightsOf(m))
    requires InVocabulary(tokens, m.config.vocabularySize) && |tokens| > 0
    ensures PlainLogits(m, tokens, NetworkLogits(m.config, WeightsOf(m), tokens))
  {
    hide LoadedModel, NetworkFits, WeightsOf, NetworkLogits, InVocabulary, Lawful, ExpAdds, NetworkSources, Vec;
    forall rd, w | Lawful(rd) && ExpAdds(rd) && NetworkSources(m, w) && NetworkFits(m.config, w)
      ensures Vec(rd, NetworkLogits(m.config, WeightsOf(m), tokens)) == RealNetwork.LogitsAfter(rd, m.config, w, tokens)
    {
      WeightsUnique(m, w);
      LogitsReal(rd, m.config, w, tokens);
    }
  }

  /** A loaded model answers a request exactly when its linear layers agree with the hidden size; the
      answer is the causal network's logits and their argmax, which always fits an `int32_t`. */
  method ExecuteModel(m: Model, tokens: seq<int>, greater: (Scalar, Scalar) -> bool) returns (r: Result<Execution>)
    requires LoadedModel(m)
    ensures r.Ok? <==> ValidRequest(m.config, tokens) && MixersAgree(m.config)
    ensures r.Ok? ==> NetworkFits(m.config, WeightsOf(m))
    ensures r.Ok? ==> r.value.logits == NetworkLogits(m.config, WeightsOf(m), tokens)
    ensures r.Ok? ==> PlainLogits(m, tokens, r.value.logits)
    ensures r.Ok? ==> r.value.token == ArgmaxOf(greater, r.value.logits, |r.value.logits|) < m.config.vocabularySize
    ensures r.Ok? ==> r.value.token <= I32_MAX
  {
    hide *;
    var c, w, rows := m.config, WeightsOf(m), |tokens|;
    WeightsFit(m);
    var valid := CheckTokens(c, tokens);
    RequestFacts(m, tokens);
    if !valid {
      return Err;
    }
    LayersDecide(m, rows);
    var hidden := EmbedTokens(c, w, tokens);
    ghost var start := Rows(hidden[..], rows, c.hiddenSize);
    var ok := RunLayers(c, w, hidden, rows, start);
    if !ok {
      return Err;
    }
    StackedRows(c, w, tokens, hidden[..]);
    LogitsArePlain(m, tokens);
    var logits := FinalLogits(c, w, hidden, rows);
    var token := Argmax(greater, logits);
    if token > I32_MAX {
      return Err;
    }
    r := Ok(Execution(logits, token));
  }

  lemma {:induction false} RequestFacts(m: Model, tokens: seq<int>)
    requires LoadedModel(m)
    ensures ValidConfig(m.config) && 0 < m.config.vocabularySize <= I32_MAX
    ensures ValidRequest(m.config, tokens) ==> 0 < |tokens| <= U32_MAX && InVocabulary(tokens, m.config.vocabularySize)
  {
    hide WellFormedCatalog, LocatedManifest;
  }

  lemma {:induction false} StackedRows(c: Config, w: NetworkWeights, tokens: seq<int>, hidden: seq<Scalar>)
    requires NetworkFits(c, w) && InVocabulary(tokens, c.vocabularySize) && |tokens| > 0
    requires |hidden| == Offset(|tokens|, c.hiddenSize)
    requires Rows(hidden, |tokens|, c.hiddenSize) == StackRows(c, w.layers, Embed(c, w, tokens), |w.layers|)
    ensures Rows(hidden, |tokens|, c.hiddenSize) == Hidden(c, w, tokens, |w.layers|)
    ensures NetworkLogits(c, w, tokens) == LogitsOf(c, w, Rows(hidden, |tokens|, c.hiddenSize)[|tokens| - 1])
  {
    hide StackRows, LogitsOf, Embed, Rows;
  }

  method FinalLogits(c: Config, w: NetworkWeights, hidden: array<Scalar>, rows: nat) returns (logits: seq<Scalar>)
    requires ValidConfig(c) && EdgesFit(c, w) && rows > 0 && hidden.Length == Offset(rows, c.hiddenSize)
    ensures logits == LogitsOf(c, w, Rows(hidden[..], rows, c.hiddenSize)[rows - 1])
  {
    hide Rows, Offset, RmsRow, LinearRow;
    var h := c.hiddenSize;
    ghost var last := Rows(hidden[..], rows, h)[rows - 1];
    LastRow(hidden[..], rows, h);
    var finalHidden := new Scalar[h](_ => Zero);
    var normed := RmsNorm(hidden, Offset(rows - 1, h), h, w.outputNorm, finalHidden, 1, h, Epsilon(c));
    OneRow(h);
    OneRow(c.vocabularySize);
    SingleRow(last, h);
    SingleRow(finalHidden[..], h);
    var result := Linear(finalHidden[..], 1, h, w.output, c.vocabularySize);
    SingleRow(result.value, c.vocabularySize);
    logits := result.value;
    SingleRowKernels(last, finalHidden[..], logits, w.outputNorm, Epsilon(c), Rows(w.output, c.vocabularySize, h));
  }

  lemma {:induction false} SingleRowKernels(last: seq<Scalar>, normed: seq<Scalar>, logits: seq<Scalar>,
                                            weight: seq<Scalar>, epsilon: Scalar, output: seq<seq<Scalar>>)
    requires |weight| == |last| == |normed|
    requires forall o :: 0 <= o < |output| ==> |output[o]| == |last|
    requires [normed] == RmsRows([last], |last|, weight, epsilon)
    requires [logits] == LinearRows([normed], |last|, output)
    ensures logits == LinearRow(RmsRow(last, weight, epsilon), output)
  {
    hide RmsRow, LinearRow;
    assert [normed][0] == RmsRow([last][0], weight, epsilon);
    assert [logits][0] == LinearRow([normed][0], output);
  }

  lemma {:induction false} LastRow(hidden: seq<Scalar>, rows: nat, h: nat)
    requires rows > 0 && |hidden| == Offset(rows, h)
    ensures Offset(rows - 1, h) + h == |hidden|
    ensures hidden[Offset(rows - 1, h)..Offset(rows - 1, h) + h] == Rows(hidden, rows, h)[rows - 1]
  {
  }

  lemma {:induction false} OneRow(w: nat)
    ensures Offset(1, w) == w
  {
    assert Offset(0, w) == 0;
  }

  lemma {:induction false} SingleRow(x: seq<Scalar>, w: nat)
    requires |x| == w
    ensures Offset(1, w) == w && Rows(x, 1, w) == [x]
  {
    assert Offset(0, w) == 0;
    assert Row(x, 1, w, 0) == x[0..w] == x;
  }

  /** Two runs that share a prefix agree on it: the logits for the prefix come from the hidden rows
      of the longer run. */
  lemma {:induction false} ExecutionIsCausal(m: Model, tokens: seq<int>, p: nat)
    requires LoadedModel(m) && MixersAgree(m.config) && ValidRequest(m.config, tokens) && 0 < p <= |tokens|
    ensures ValidRequest(m.config, tokens[..p]) && NetworkFits(m.config, WeightsOf(m))
    ensures NetworkLogits(m.config, WeightsOf(m), tokens[..p])
            == LogitsOf(m.config, WeightsOf(m), Hidden(m.config, WeightsOf(m), tokens, |m.config.blocks|)[p - 1])
  {
    hide LogitsOf, Hidden, NetworkFits, LoadedModel, WeightsOf, MixersAgree;
    WeightsFit(m);
    LogitsCausal(m.config, WeightsOf(m), tokens, p);
  }
}
