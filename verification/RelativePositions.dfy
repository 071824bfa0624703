/** The attention mixer sees positions only through their differences: over the reals, where the context starts
    makes no difference to any output row. */
module RelativePositions {
  import opened Matrix
  import opened Scalars
  import opened Readings
  import opened Kernels
  import opened Attention
  import opened AttentionLaws
  import opened RealNetwork
  import opened RealKernels
  import opened RealAttention

  /** The same arguments with every position moved by `s`. */
  function Moved(args: FullArgs, s: nat): FullArgs { args.(positionOffset := args.positionOffset + s) }

  lemma MovedShapes(args: FullArgs, weights: FullWeights, xs: seq<seq<Scalar>>, s: nat)
    requires args.Valid() && Packed(args, xs) && FitsWeights(args, weights)
    ensures Moved(args, s).Valid() && Packed(Moved(args, s), xs) && FitsWeights(Moved(args, s), weights)
    ensures Moved(args, s).Stride() == args.Stride()
  {
  }

  lemma {:induction false} PreparedDot(rd: Reading, args: FullArgs, a: seq<Scalar>, b: seq<Scalar>,
                                       v: seq<Scalar>, w: seq<Scalar>, p: nat, q: nat, s: nat)
    requires AngleLaws(rd) && |a| == |b| == |v| == |w| && args.rotaryDim <= |a|
    ensures Dot(Vec(rd, PrepareHead(Moved(args, s), a, v, p + s)), Vec(rd, PrepareHead(Moved(args, s), b, w, q + s)))
            == Dot(Vec(rd, PrepareHead(args, a, v, p)), Vec(rd, PrepareHead(args, b, w, q)))
  {
    hide Vec, RopeRow, RmsRow, Dot, AngleLaws;
    RotationIsRelative(rd, RmsRow(a, v, args.epsilon), RmsRow(b, w, args.epsilon), args.rotaryDim, p, q, s, args.ropeBase);
  }

  lemma {:induction false} ScoreMoved(rd: Reading, args: FullArgs, weights: FullWeights, x: seq<Scalar>, y: seq<Scalar>,
                                      t: nat, j: nat, h: nat, g: nat, s: nat)
    requires AngleLaws(rd) && args.Valid() && FitsWeights(args, weights)
    requires |x| == |y| == args.Stride() && h < args.queryHeads && g < args.kvHeads
    ensures Moved(args, s).Valid()
    ensures Dot(Vec(rd, QueryHeads(Moved(args, s), weights, x, t)[h]), Vec(rd, KeyHeads(Moved(args, s), weights, y, j)[g]))
            == Dot(Vec(rd, QueryHeads(args, weights, x, t)[h]), Vec(rd, KeyHeads(args, weights, y, j)[g]))
  {
    hide Vec, PrepareHead, Dot, AngleLaws, Rows, Offset;
    var q := Rows(x[..args.QSize()], args.queryHeads, args.headDim)[h];
    var k := Rows(y[args.QSize()..args.QSize() + args.KvSize()], args.kvHeads, args.headDim)[g];
    PreparedDot(rd, args, q, k, weights.queryNorm, weights.keyNorm, args.positionOffset + t, args.positionOffset + j, s);
    assert Moved(args, s).positionOffset + t == args.positionOffset + t + s;
    assert Moved(args, s).positionOffset + j == args.positionOffset + j + s;
  }

  lemma {:induction false} HeadMoved(rd: Reading, args: FullArgs, weights: FullWeights, xs: seq<seq<Scalar>>, h: nat, s: nat)
    requires Lawful(rd) && ExpAdds(rd) && AngleLaws(rd)
    requires args.Valid() && Packed(args, xs) && FitsWeights(args, weights) && |xs| > 0 && h < args.queryHeads
    requires Moved(args, s).Valid() && Packed(Moved(args, s), xs) && FitsWeights(Moved(args, s), weights)
    ensures Vec(rd, AttendedHeads(Moved(args, s), weights, xs)[h]) == Vec(rd, AttendedHeads(args, weights, xs)[h])
  {
    hide Vec, QueryHeads, KeyHeads, ValueHeads, HeadOutput, Dot, SoftmaxOf, Lawful, ExpAdds, AngleLaws, Ratio, Component, Offset;
    var t, g, moved := |xs| - 1, args.KvHead(h), Moved(args, s);
    assert moved.KvHead(h) == g;
    var q, q' := QueryHeads(args, weights, xs[t], t)[h], QueryHeads(moved, weights, xs[t], t)[h];
    var keys, keys' := KeysOf(args, weights, xs, g), KeysOf(moved, weights, xs, g);
    var values := ValuesOf(args, xs, g);
    assert ValuesOf(moved, xs, g) == values by { ValuesUnmoved(args, xs, g, s); }
    forall j | 0 <= j < |xs|
      ensures Dot(Vec(rd, q'), Vec(rd, keys'[j])) == Dot(Vec(rd, q), Vec(rd, keys[j]))
    {
      ScoreMoved(rd, args, weights, xs[t], xs[j], t, j, h, g, s);
    }
    assert Scores(rd, Vec(rd, q'), Vecs(rd, keys')) == Scores(rd, Vec(rd, q), Vecs(rd, keys));
    HeadReal(rd, q, keys, values);
    HeadReal(rd, q', keys', values);
  }

  lemma ValuesUnmoved(args: FullArgs, xs: seq<seq<Scalar>>, g: nat, s: nat)
    requires Packed(args, xs) && Packed(Moved(args, s), xs) && g < args.kvHeads
    ensures ValuesOf(Moved(args, s), xs, g) == ValuesOf(args, xs, g)
  {
    hide Rows, Offset;
  }

  lemma {:induction false} ThroughReal(rd: Reading, attention: seq<Scalar>, gate: seq<Scalar>)
    requires |attention| == |gate|
    ensures Vec(rd, Gated(attention, gate)) == LetThrough(rd, Vec(rd, attention), Vec(rd, gate))
  {
    hide Eval, Sigmoid, Logistic;
    forall d | 0 <= d < |gate|
      ensures Vec(rd, Gated(attention, gate))[d] == LetThrough(rd, Vec(rd, attention), Vec(rd, gate))[d]
    {
      EvalMul(rd, attention[d], Sigmoid(gate[d]));
      SigmoidReal(rd, gate[d]);
    }
  }

  lemma {:induction false} ProjectSame(rd: Reading, x: seq<Scalar>, y: seq<Scalar>, weight: seq<seq<Scalar>>, w: nat)
    requires |weight| == |x| == |y| && (forall i :: 0 <= i < |weight| ==> |weight[i]| == w) && Vec(rd, x) == Vec(rd, y)
    ensures Vec(rd, ProjectRow(x, weight, w)) == Vec(rd, ProjectRow(y, weight, w))
  {
    hide Eval, DotD, Dot, Column;
    forall o | 0 <= o < w
      ensures Vec(rd, ProjectRow(x, weight, w))[o] == Vec(rd, ProjectRow(y, weight, w))[o]
    {
      var column := Column(weight, w, o);
      EvalInner(rd, x, column);
      EvalInner(rd, y, column);
      EvalNarrow(rd, DotD(x, column, |x|));
      EvalNarrow(rd, DotD(y, column, |y|));
    }
  }

  /** Moving every position by the same number of tokens changes no output row. */
  lemma {:induction false} OutputIgnoresStart(rd: Reading, args: FullArgs, weights: FullWeights, xs: seq<seq<Scalar>>, s: nat)
    requires Lawful(rd) && ExpAdds(rd) && AngleLaws(rd)
    requires args.Valid() && Packed(args, xs) && FitsWeights(args, weights) && |xs| > 0
    requires Moved(args, s).Valid() && Packed(Moved(args, s), xs) && FitsWeights(Moved(args, s), weights)
    ensures Vec(rd, AttendLast(Moved(args, s), weights, xs)) == Vec(rd, AttendLast(args, weights, xs))
  {
    hide Vec, AttendedHeads, Flatten, Gated, Rows, ProjectRow, Lawful, ExpAdds, AngleLaws, LetThrough, Offset;
    var moved := Moved(args, s);
    var heads, heads' := AttendedHeads(args, weights, xs), AttendedHeads(moved, weights, xs);
    forall h | 0 <= h < args.queryHeads
      ensures Vec(rd, heads'[h]) == Vec(rd, heads[h])
    {
      HeadMoved(rd, args, weights, xs, h, s);
    }
    assert Vecs(rd, heads') == Vecs(rd, heads);
    VecFlatten(rd, heads, args.headDim);
    VecFlatten(rd, heads', args.headDim);
    var gate := Gate(args, xs[|xs| - 1]);
    ThroughReal(rd, Flatten(heads, args.headDim), gate);
    ThroughReal(rd, Flatten(heads', args.headDim), gate);
    ProjectSame(rd, Gated(Flatten(heads', args.headDim), gate), Gated(Flatten(heads, args.headDim), gate),
                Rows(weights.output, args.hiddenSize, args.hiddenSize), args.hiddenSize);
  }
}
