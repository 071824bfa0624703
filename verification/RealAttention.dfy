/** The full attention mixer, packed rows and transposed weight and all, is plain attention over the reals. */
module RealAttention {
  import opened Matrix
  import opened Scalars
  import opened Readings
  import opened Kernels
  import opened Attention
  import opened AttentionLaws
  import opened Qwen35Config
  import opened ReferenceNetwork
  import opened ReferenceExecutor
  import opened RealNetwork
  import opened RealKernels

  // ----- one head -----

  lemma {:induction false} EvalLogit(rd: Reading, dot: Scalar, dim: nat)
    ensures Eval(rd, ToFloat(DivD(dot, Unary(DSqrt, OfNat(dim))))) == Ratio(Eval(rd, dot), rd.sqrt(dim as real))
  {
    hide Ratio;
    assert Eval(rd, Unary(DSqrt, OfNat(dim))) == rd.sqrt(dim as real);
    assert Eval(rd, DivD(dot, Unary(DSqrt, OfNat(dim)))) == Ratio(Eval(rd, dot), rd.sqrt(dim as real));
  }

  lemma {:induction false} LogitReal(rd: Reading, q: seq<Scalar>, keys: seq<seq<Scalar>>, j: nat)
    requires j < |keys| && forall k :: 0 <= k < |keys| ==> |keys[k]| == |q|
    ensures Eval(rd, Logits(q, keys)[j]) == Ratio(Dot(Vec(rd, q), Vec(rd, keys[j])), rd.sqrt(|q| as real))
  {
    hide Eval, Ratio, Dot, DotD;
    EvalInner(rd, q, keys[j]);
    EvalLogit(rd, DotD(q, keys[j], |q|), |q|);
  }

  lemma {:induction false} SoftmaxReal(rd: Reading, logits: seq<Scalar>)
    requires Lawful(rd) && ExpAdds(rd)
    ensures Vec(rd, Softmax(logits)) == SoftmaxOf(rd, Vec(rd, logits))
  {
    hide Eval, Softmax, Total, Lawful, ExpAdds;
    var left, right := Vec(rd, Softmax(logits)), SoftmaxOf(rd, Vec(rd, logits));
    assert ExpAll(rd, Vec(rd, logits)) == seq(|logits|, j requires 0 <= j < |logits| => rd.exp(Vec(rd, logits)[j]));
    forall j | 0 <= j < |logits|
      ensures left[j] == right[j]
    {
      SoftmaxIgnoresShift(rd, logits, j);
    }
  }

  lemma {:induction false} WeightsReal(rd: Reading, q: seq<Scalar>, keys: seq<seq<Scalar>>)
    requires Lawful(rd) && ExpAdds(rd) && forall k :: 0 <= k < |keys| ==> |keys[k]| == |q|
    ensures Vec(rd, Softmax(Logits(q, keys))) == AttentionWeights(rd, Vec(rd, q), Vecs(rd, keys))
  {
    hide Eval, Softmax, Logits, SoftmaxOf, Ratio, Dot, Lawful, ExpAdds;
    SoftmaxReal(rd, Logits(q, keys));
    var scores := Scores(rd, Vec(rd, q), Vecs(rd, keys));
    forall j | 0 <= j < |keys|
      ensures Vec(rd, Logits(q, keys))[j] == scores[j]
    {
      LogitReal(rd, q, keys, j);
    }
    assert Vec(rd, Logits(q, keys)) == scores;
  }

  lemma {:induction false} HeadReal(rd: Reading, q: seq<Scalar>, keys: seq<seq<Scalar>>, values: seq<seq<Scalar>>)
    requires Lawful(rd) && ExpAdds(rd) && |keys| == |values|
    requires forall j :: 0 <= j < |keys| ==> |keys[j]| == |q| && |values[j]| == |q|
    ensures Vec(rd, HeadOutput(q, keys, values)) == Attend(rd, Vec(rd, q), Vecs(rd, keys), Vecs(rd, values))
  {
    hide Eval, Softmax, Logits, AttentionWeights, Mix, Total, Lawful, ExpAdds;
    var n, p := |keys|, Softmax(Logits(q, keys));
    WeightsReal(rd, q, keys);
    var left, right := Vec(rd, HeadOutput(q, keys, values)), Attend(rd, Vec(rd, q), Vecs(rd, keys), Vecs(rd, values));
    forall d | 0 <= d < |q|
      ensures left[d] == right[d]
    {
      EvalMix(rd, p, values, |q|, n, d);
      ColumnReal(rd, values, |q|, d);
      var column := Vec(rd, Column(values, |q|, d));
      assert Times(Vec(rd, p), column)[..n] == Times(Vec(rd, p), column);
    }
  }

  lemma {:induction false} ColumnReal(rd: Reading, m: seq<seq<Scalar>>, w: nat, d: nat)
    requires d < w && forall r :: 0 <= r < |m| ==> |m[r]| == w
    ensures Vec(rd, Column(m, w, d)) == Component(Vecs(rd, m), d)
  {
    hide Eval;
  }

  lemma {:induction false} PrepareReal(rd: Reading, args: FullArgs, head: seq<Scalar>, weight: seq<Scalar>, position: nat)
    requires |head| == |weight| && args.rotaryDim <= |head|
    ensures Vec(rd, PrepareHead(args, head, weight, position))
            == Rope(rd, Rms(rd, Vec(rd, head), Vec(rd, weight), Eval(rd, args.epsilon)),
                    args.rotaryDim, position, Eval(rd, args.ropeBase))
  {
    hide Eval, RopeRow, RmsRow, Rope, Rms;
    RmsReal(rd, head, weight, args.epsilon);
    RopeReal(rd, RmsRow(head, weight, args.epsilon), args.rotaryDim, position, args.ropeBase);
  }

  // ----- a packed row, taken apart -----

  lemma {:induction false} FourParts<T>(a: seq<T>, b: seq<T>, c: seq<T>, d: seq<T>)
    ensures
      var row := a + b + c + d;
      && row[..|a|] == a
      && row[|a|..|a| + |b|] == b
      && row[|a| + |b|..|a| + |b| + |c|] == c
      && row[|a| + |b| + |c|..] == d
  {
  }

  function QueryGateRow(c: Config, w: FullMixerWeights, x: seq<Scalar>): (row: seq<Scalar>)
    requires FullFits(c, w) && |x| == c.hiddenSize
    ensures |row| == Offset(c.fullHeads, c.fullHeadDim + c.fullHeadDim)
  {
    OffsetDouble(c.fullHeads, c.fullHeadDim);
    LinearRow(x, Rows(w.query, QueryWidth(c) + QueryWidth(c), c.hiddenSize))
  }

  lemma {:induction false} PackedParts(c: Config, w: FullMixerWeights, x: seq<Scalar>, n: nat)
    requires FullFits(c, w) && |x| == c.hiddenSize && n > 0
    ensures
      var args, row := FullArgsOf(c, n), PackFullRow(c, w, x);
      var q, kv := args.QSize(), args.KvSize();
      && |row| == args.Stride()
      && row[..q] == QueryPart(QueryGateRow(c, w, x), c.fullHeads, c.fullHeadDim)
      && row[q..q + kv] == LinearRow(x, Rows(w.key, KvWidth(c), c.hiddenSize))
      && row[q + kv..q + kv + kv] == LinearRow(x, Rows(w.value, KvWidth(c), c.hiddenSize))
      && row[q + kv + kv..] == GatePart(QueryGateRow(c, w, x), c.fullHeads, c.fullHeadDim)
  {
    hide LinearRow, Rows, Offset, QueryPart, GatePart;
    var queryGate := QueryGateRow(c, w, x);
    FourParts(QueryPart(queryGate, c.fullHeads, c.fullHeadDim),
              LinearRow(x, Rows(w.key, KvWidth(c), c.hiddenSize)),
              LinearRow(x, Rows(w.value, KvWidth(c), c.hiddenSize)),
              GatePart(queryGate, c.fullHeads, c.fullHeadDim));
  }

  lemma {:induction false} QueryPartHead(row: seq<Scalar>, heads: nat, dim: nat, h: nat)
    requires |row| == Offset(heads, dim + dim) && h < heads
    ensures Row(QueryPart(row, heads, dim), heads, dim, h) == Row(row, heads, dim + dim, h)[..dim]
    ensures Row(GatePart(row, heads, dim), heads, dim, h) == Row(row, heads, dim + dim, h)[dim..]
  {
    hide Row, Flatten;
    var queries := seq(heads, k requires 0 <= k < heads => Row(row, heads, dim + dim, k)[..dim]);
    var gates := seq(heads, k requires 0 <= k < heads => Row(row, heads, dim + dim, k)[dim..]);
    RowsFlatten(queries, dim);
    RowsFlatten(gates, dim);
    assert Rows(Flatten(queries, dim), heads, dim)[h] == Row(Flatten(queries, dim), heads, dim, h);
    assert Rows(Flatten(gates, dim), heads, dim)[h] == Row(Flatten(gates, dim), heads, dim, h);
  }

  lemma {:induction false} QueryGateReal(rd: Reading, c: Config, w: FullMixerWeights, x: seq<Scalar>, h: nat)
    requires FullFits(c, w) && |x| == c.hiddenSize && h < c.fullHeads
    ensures QueryGate(rd, c, w, Vec(rd, x), h)
            == Vec(rd, Row(QueryGateRow(c, w, x), c.fullHeads, c.fullHeadDim + c.fullHeadDim, h))
  {
    hide Eval, LinearRow, Affine, Rows, Row, Offset;
    OffsetDouble(c.fullHeads, c.fullHeadDim);
    LinearReal(rd, x, w.query, QueryWidth(c) + QueryWidth(c));
    VecRow(rd, QueryGateRow(c, w, x), c.fullHeads, c.fullHeadDim + c.fullHeadDim, h);
  }

  lemma EvalConfig(rd: Reading, c: Config)
    ensures Eval(rd, Input(c.epsilon)) == rd.stored(c.epsilon) && Eval(rd, Input(c.ropeBase)) == rd.stored(c.ropeBase)
  {
  }

  lemma {:induction false} QueryReal(rd: Reading, c: Config, w: FullMixerWeights, x: seq<Scalar>, n: nat, h: nat, t: nat)
    requires FullFits(c, w) && |x| == c.hiddenSize && n > 0 && h < c.fullHeads
    ensures FullArgsOf(c, n).Valid() && |PackFullRow(c, w, x)| == FullArgsOf(c, n).Stride()
    ensures Vec(rd, QueryHeads(FullArgsOf(c, n), FullWeightsOf(c, w), PackFullRow(c, w, x), t)[h])
            == QueryAt(rd, c, w, Vec(rd, x), h, t)
  {
    hide Eval, PackFullRow, QueryGateRow, QueryPart, PrepareHead, Rope, Rms, QueryGate, Offset, Flatten, Row;
    var args, row := FullArgsOf(c, n), PackFullRow(c, w, x);
    var qg := Row(QueryGateRow(c, w, x), c.fullHeads, c.fullHeadDim + c.fullHeadDim, h);
    PackedParts(c, w, x, n);
    QueryPartHead(QueryGateRow(c, w, x), c.fullHeads, c.fullHeadDim, h);
    QueryGateReal(rd, c, w, x, h);
    EvalConfig(rd, c);
    PrepareReal(rd, args, qg[..c.fullHeadDim], w.queryNorm, t);
    assert Vec(rd, qg)[..c.fullHeadDim] == Vec(rd, qg[..c.fullHeadDim]);
  }

  lemma {:induction false} KeyReal(rd: Reading, c: Config, w: FullMixerWeights, x: seq<Scalar>, n: nat, g: nat, t: nat)
    requires FullFits(c, w) && |x| == c.hiddenSize && n > 0 && g < c.fullKvHeads
    ensures FullArgsOf(c, n).Valid() && |PackFullRow(c, w, x)| == FullArgsOf(c, n).Stride()
    ensures Vec(rd, KeyHeads(FullArgsOf(c, n), FullWeightsOf(c, w), PackFullRow(c, w, x), t)[g])
            == KeyAt(rd, c, w, Vec(rd, x), g, t)
  {
    hide Eval, PackFullRow, PrepareHead, Rope, Rms, Offset, Flatten, LinearRow, Affine, Row, QueryPart, GatePart;
    var args, row := FullArgsOf(c, n), PackFullRow(c, w, x);
    var keys := LinearRow(x, Rows(w.key, KvWidth(c), c.hiddenSize));
    PackedParts(c, w, x, n);
    LinearReal(rd, x, w.key, KvWidth(c));
    VecRow(rd, keys, c.fullKvHeads, c.fullHeadDim, g);
    EvalConfig(rd, c);
    PrepareReal(rd, args, Row(keys, c.fullKvHeads, c.fullHeadDim, g), w.keyNorm, t);
  }

  lemma {:induction false} ValueReal(rd: Reading, c: Config, w: FullMixerWeights, x: seq<Scalar>, n: nat, g: nat)
    requires FullFits(c, w) && |x| == c.hiddenSize && n > 0 && g < c.fullKvHeads
    ensures FullArgsOf(c, n).Valid() && |PackFullRow(c, w, x)| == FullArgsOf(c, n).Stride()
    ensures Vec(rd, ValueHeads(FullArgsOf(c, n), PackFullRow(c, w, x))[g]) == ValueAt(rd, c, w, Vec(rd, x), g)
  {
    hide Eval, PackFullRow, Offset, Flatten, LinearRow, Affine, Row, QueryPart, GatePart;
    var values := LinearRow(x, Rows(w.value, KvWidth(c), c.hiddenSize));
    PackedParts(c, w, x, n);
    LinearReal(rd, x, w.value, KvWidth(c));
    VecRow(rd, values, c.fullKvHeads, c.fullHeadDim, g);
  }

  lemma {:induction false} GateReal(rd: Reading, c: Config, w: FullMixerWeights, x: seq<Scalar>, n: nat, h: nat)
    requires FullFits(c, w) && |x| == c.hiddenSize && n > 0 && h < c.fullHeads
    ensures FullArgsOf(c, n).Valid() && |PackFullRow(c, w, x)| == FullArgsOf(c, n).Stride()
    ensures Vec(rd, Row(Gate(FullArgsOf(c, n), PackFullRow(c, w, x)), c.fullHeads, c.fullHeadDim, h))
            == QueryGate(rd, c, w, Vec(rd, x), h)[c.fullHeadDim..]
  {
    hide Eval, PackFullRow, QueryGateRow, GatePart, QueryPart, QueryGate, Offset, Flatten, Row, LinearRow;
    var qg := Row(QueryGateRow(c, w, x), c.fullHeads, c.fullHeadDim + c.fullHeadDim, h);
    PackedParts(c, w, x, n);
    QueryPartHead(QueryGateRow(c, w, x), c.fullHeads, c.fullHeadDim, h);
    QueryGateReal(rd, c, w, x, h);
    assert Vec(rd, qg)[c.fullHeadDim..] == Vec(rd, qg[c.fullHeadDim..]);
  }

  // ----- one token -----

  ghost predicate Sized(c: Config, xs: seq<seq<Scalar>>) {
    forall j :: 0 <= j < |xs| ==> |xs[j]| == c.hiddenSize
  }

  /** The packed rows that token `t` attends to. */
  ghost function PrefixRows(c: Config, w: FullMixerWeights, xs: seq<seq<Scalar>>, n: nat, t: nat): (rows: seq<seq<Scalar>>)
    requires FullFits(c, w) && t < |xs| && n > 0 && Sized(c, xs)
    ensures |rows| == t + 1 && FullArgsOf(c, n).Valid() && Packed(FullArgsOf(c, n), rows)
    ensures |rows[t]| == FullArgsOf(c, n).Stride()
  {
    FullArgsTokens(c, n);
    PackFull(c, w, xs)[..t + 1]
  }

  ghost function AttendedAt(c: Config, w: FullMixerWeights, xs: seq<seq<Scalar>>, n: nat, t: nat): (heads: seq<seq<Scalar>>)
    requires FullFits(c, w) && t < |xs| && n > 0 && Sized(c, xs)
    ensures |heads| == c.fullHeads && forall h :: 0 <= h < |heads| ==> |heads[h]| == c.fullHeadDim
  {
    AttendedHeads(FullArgsOf(c, n), FullWeightsOf(c, w), PrefixRows(c, w, xs, n, t))
  }

  ghost function GatedAt(c: Config, w: FullMixerWeights, xs: seq<seq<Scalar>>, n: nat, t: nat): (row: seq<Scalar>)
    requires FullFits(c, w) && t < |xs| && n > 0 && Sized(c, xs)
    ensures |row| == c.hiddenSize == Offset(c.fullHeads, c.fullHeadDim)
  {
    Gated(Flatten(AttendedAt(c, w, xs, n, t), c.fullHeadDim), Gate(FullArgsOf(c, n), PrefixRows(c, w, xs, n, t)[t]))
  }

  lemma {:induction false} KeysReal(rd: Reading, c: Config, w: FullMixerWeights, xs: seq<seq<Scalar>>, n: nat, t: nat, g: nat)
    requires FullFits(c, w) && t < |xs| && n > 0 && g < c.fullKvHeads && Sized(c, xs)
    ensures Wide(Vecs(rd, xs), c.hiddenSize)
    ensures Vecs(rd, KeysOf(FullArgsOf(c, n), FullWeightsOf(c, w), PrefixRows(c, w, xs, n, t), g))
            == KeysAt(rd, c, w, Vecs(rd, xs), g, t + 1)
    ensures Vecs(rd, ValuesOf(FullArgsOf(c, n), PrefixRows(c, w, xs, n, t), g))
            == ValuesAt(rd, c, w, Vecs(rd, xs), g, t + 1)
  {
    hide Vec, PackFullRow, KeyHeads, ValueHeads, KeyAt, ValueAt, Offset;
    var args, packed := FullArgsOf(c, n), PrefixRows(c, w, xs, n, t);
    forall j | 0 <= j <= t
      ensures |packed[j]| == args.Stride()
      ensures Vec(rd, KeyHeads(args, FullWeightsOf(c, w), packed[j], j)[g]) == KeyAt(rd, c, w, Vec(rd, xs[j]), g, j)
      ensures Vec(rd, ValueHeads(args, packed[j])[g]) == ValueAt(rd, c, w, Vec(rd, xs[j]), g)
    {
      KeyReal(rd, c, w, xs[j], n, g, j);
      ValueReal(rd, c, w, xs[j], n, g);
    }
  }

  lemma {:induction false} AttendedReal(rd: Reading, c: Config, w: FullMixerWeights, xs: seq<seq<Scalar>>, n: nat, t: nat, h: nat)
    requires Lawful(rd) && ExpAdds(rd)
    requires FullFits(c, w) && t < |xs| && n > 0 && h < c.fullHeads && Sized(c, xs)
    ensures Wide(Vecs(rd, xs), c.hiddenSize)
    ensures Vec(rd, AttendedAt(c, w, xs, n, t)[h])
            == Attend(rd, QueryAt(rd, c, w, Vec(rd, xs[t]), h, t),
                      KeysAt(rd, c, w, Vecs(rd, xs), FullArgsOf(c, 1).KvHead(h), t + 1),
                      ValuesAt(rd, c, w, Vecs(rd, xs), FullArgsOf(c, 1).KvHead(h), t + 1))
  {
    hide Vec, Vecs, PackFullRow, QueryHeads, QueryAt, KeysOf, ValuesOf, KeysAt, ValuesAt, HeadOutput, Attend, Offset, Lawful, ExpAdds;
    var args, packed := FullArgsOf(c, n), PrefixRows(c, w, xs, n, t);
    var g := FullArgsOf(c, 1).KvHead(h);
    FullArgsTokens(c, n);
    assert args.KvHead(h) == g;
    KeysReal(rd, c, w, xs, n, t, g);
    QueryReal(rd, c, w, xs[t], n, h, t);
    HeadReal(rd, QueryHeads(args, FullWeightsOf(c, w), packed[t], t)[h],
             KeysOf(args, FullWeightsOf(c, w), packed, g), ValuesOf(args, packed, g));
  }

  lemma {:induction false} GatedHead(rd: Reading, heads: seq<seq<Scalar>>, gate: seq<Scalar>, dim: nat, h: nat)
    requires forall k :: 0 <= k < |heads| ==> |heads[k]| == dim
    requires |gate| == Offset(|heads|, dim) && h < |heads|
    ensures
      Vec(rd, Row(Gated(Flatten(heads, dim), gate), |heads|, dim, h))
      == LetThrough(rd, Vec(rd, heads[h]), Vec(rd, Row(gate, |heads|, dim, h)))
  {
    hide Eval, Flatten, Sigmoid, Logistic, Row, Offset;
    var n, flat := |heads|, Flatten(heads, dim);
    RowsFlatten(heads, dim);
    assert Rows(flat, n, dim)[h] == Row(flat, n, dim, h);
    var left := Vec(rd, Row(Gated(flat, gate), n, dim, h));
    var right := LetThrough(rd, Vec(rd, heads[h]), Vec(rd, Row(gate, n, dim, h)));
    forall d | 0 <= d < dim
      ensures left[d] == right[d]
    {
      var at := h * dim + d;
      RowCell(Gated(flat, gate), n, dim, h, d);
      RowCell(flat, n, dim, h, d);
      RowCell(gate, n, dim, h, d);
      EvalMul(rd, flat[at], Sigmoid(gate[at]));
      SigmoidReal(rd, gate[at]);
    }
  }

  lemma {:induction false} OneHeadReal(rd: Reading, c: Config, w: FullMixerWeights, xs: seq<seq<Scalar>>, n: nat, t: nat, h: nat)
    requires Lawful(rd) && ExpAdds(rd)
    requires FullFits(c, w) && t < |xs| && n > 0 && h < c.fullHeads && Sized(c, xs)
    ensures Wide(Vecs(rd, xs), c.hiddenSize)
    ensures Row(Vec(rd, GatedAt(c, w, xs, n, t)), c.fullHeads, c.fullHeadDim, h) == HeadAt(rd, c, w, Vecs(rd, xs), t, h)
  {
    hide Vec, PackFullRow, AttendedAt, Attend, LetThrough, QueryAt, KeysAt, ValuesAt, Gated, Flatten, Row, QueryGate, Offset,
         Lawful, ExpAdds;
    var heads, gate := AttendedAt(c, w, xs, n, t), Gate(FullArgsOf(c, n), PrefixRows(c, w, xs, n, t)[t]);
    VecRow(rd, GatedAt(c, w, xs, n, t), c.fullHeads, c.fullHeadDim, h);
    GatedHead(rd, heads, gate, c.fullHeadDim, h);
    AttendedReal(rd, c, w, xs, n, t, h);
    GateReal(rd, c, w, xs[t], n, h);
  }

  /** The gated answers of all heads, side by side. */
  lemma {:induction false} GatedReal(rd: Reading, c: Config, w: FullMixerWeights, xs: seq<seq<Scalar>>, n: nat, t: nat)
    requires Lawful(rd) && ExpAdds(rd)
    requires FullFits(c, w) && t < |xs| && n > 0 && Sized(c, xs)
    ensures Wide(Vecs(rd, xs), c.hiddenSize)
    ensures Vec(rd, GatedAt(c, w, xs, n, t)) == Flatten(HeadsAt(rd, c, w, Vecs(rd, xs), t), c.fullHeadDim)
  {
    hide Vec, Vecs, GatedAt, HeadAt, Flatten, Row, Rows, Offset, Lawful, ExpAdds;
    var gated, plain := GatedAt(c, w, xs, n, t), HeadsAt(rd, c, w, Vecs(rd, xs), t);
    RowsFlatten(plain, c.fullHeadDim);
    forall h | 0 <= h < c.fullHeads
      ensures Row(Vec(rd, gated), c.fullHeads, c.fullHeadDim, h) == plain[h]
    {
      OneHeadReal(rd, c, w, xs, n, t, h);
    }
    RowsInjective(Vec(rd, gated), Flatten(plain, c.fullHeadDim), c.fullHeads, c.fullHeadDim);
  }

  /** Row `t` of the mixer is plain attention of token `t` over the tokens up to it. */
  lemma {:induction false} FullMixerReal(rd: Reading, c: Config, w: FullMixerWeights, xs: seq<seq<Scalar>>, t: nat)
    requires Lawful(rd) && ExpAdds(rd)
    requires FullFits(c, w) && t < |xs| && Sized(c, xs)
    ensures Wide(Vecs(rd, xs), c.hiddenSize)
    ensures Vec(rd, FullMixerRows(c, w, xs)[t]) == FullAt(rd, c, w, Vecs(rd, xs), t)
  {
    hide Vec, Vecs, PackFullRow, AttendedHeads, HeadAt, Gated, Flatten, Rows, QueryGate, Offset, Lawful, ExpAdds, LinearRow, Affine,
         ProjectRow, TransposeRows;
    var n, h := |xs|, c.hiddenSize;
    GatedReal(rd, c, w, xs, n, t);
    var fw, packed, gated := FullWeightsOf(c, w), PrefixRows(c, w, xs, n, t), GatedAt(c, w, xs, n, t);
    assert |packed| - 1 == t && AttendLast(FullArgsOf(c, n), fw, packed) == ProjectRow(gated, Rows(fw.output, h, h), h);
    RowsFlatten(TransposeRows(Rows(w.output, h, QueryWidth(c)), QueryWidth(c)), h);
    TransposedProjection(Rows(w.output, h, QueryWidth(c)), gated);
    LinearReal(rd, gated, w.output, h);
  }
}
