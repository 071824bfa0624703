/** The row-local kernels of the reference, read over the reals, are the parts of the plain network. */
module RealKernels {
  import opened Matrix
  import opened Scalars
  import opened Readings
  import opened Kernels
  import opened AttentionLaws
  import opened Qwen35Config
  import opened ReferenceNetwork
  import opened RealNetwork

  lemma {:induction false} VecRow(rd: Reading, raw: seq<Scalar>, n: nat, w: nat, r: nat)
    requires |raw| == Offset(n, w) && r < n
    ensures Row(Vec(rd, raw), n, w, r) == Vec(rd, Row(raw, n, w, r))
  {
    hide Eval;
    RowInside(n, w, r);
  }

  lemma {:induction false} VecFlatten(rd: Reading, m: seq<seq<Scalar>>, w: nat)
    requires forall r :: 0 <= r < |m| ==> |m[r]| == w
    ensures Vec(rd, Flatten(m, w)) == Flatten(Vecs(rd, m), w)
  {
    hide Eval;
    if |m| > 0 {
      var n := |m| - 1;
      VecFlatten(rd, m[..n], w);
      assert Vecs(rd, m)[..n] == Vecs(rd, m[..n]);
    }
  }

  lemma {:induction false} LinearReal(rd: Reading, x: seq<Scalar>, raw: seq<Scalar>, outputs: nat)
    requires |raw| == Offset(outputs, |x|)
    ensures Vec(rd, LinearRow(x, Rows(raw, outputs, |x|))) == Affine(Vec(rd, raw), outputs, Vec(rd, x))
  {
    hide Eval, DotD, Row, Dot;
    var weight := Rows(raw, outputs, |x|);
    forall o | 0 <= o < outputs
      ensures Eval(rd, LinearRow(x, weight)[o]) == Affine(Vec(rd, raw), outputs, Vec(rd, x))[o]
    {
      VecRow(rd, raw, outputs, |x|, o);
      EvalInner(rd, x, weight[o]);
      EvalNarrow(rd, DotD(x, weight[o], |x|));
    }
  }

  lemma {:induction false} EvalNarrow(rd: Reading, x: Scalar)
    ensures Eval(rd, ToFloat(x)) == Eval(rd, x)
  {
  }

  lemma {:induction false} EvalRmsScale(rd: Reading, x: seq<Scalar>, epsilon: Scalar)
    ensures Eval(rd, RmsScale(x, epsilon))
            == Ratio(1.0, rd.sqrt(Ratio(Dot(Vec(rd, x), Vec(rd, x)), |x| as real) + Eval(rd, epsilon)))
  {
    hide Eval, DotD, Dot, Ratio;
    var mean := DivD(DotD(x, x, |x|), OfNat(|x|));
    EvalInner(rd, x, x);
    EvalMean(rd, DotD(x, x, |x|), |x|);
    EvalNarrow(rd, mean);
    EvalAdd(rd, ToFloat(mean), epsilon);
    EvalSqrt(rd, Add(ToFloat(mean), epsilon));
    EvalDiv(rd, One, Sqrt(Add(ToFloat(mean), epsilon)));
    EvalOne(rd);
  }

  lemma EvalOne(rd: Reading)
    ensures Eval(rd, One) == 1.0 && Eval(rd, Zero) == 0.0
  {
  }

  lemma {:induction false} EvalMean(rd: Reading, x: Scalar, n: nat)
    ensures Eval(rd, DivD(x, OfNat(n))) == Ratio(Eval(rd, x), n as real)
  {
    hide Ratio;
  }

  lemma {:induction false} NormCell(rd: Reading, x: Scalar, scale: Scalar, weight: Scalar)
    ensures Eval(rd, Mul(Mul(x, scale), Add(Zero, weight))) == Eval(rd, x) * Eval(rd, scale) * Eval(rd, weight)
  {
    hide Eval;
    EvalMul(rd, x, scale);
    EvalMul(rd, Mul(x, scale), Add(Zero, weight));
    EvalAdd(rd, Zero, weight);
    EvalOne(rd);
  }

  lemma {:induction false} NormRowReal(rd: Reading, x: seq<Scalar>, weight: seq<Scalar>, scale: Scalar)
    requires |weight| == |x|
    ensures Vec(rd, NormRow(x, weight, scale)) == Times(Scaled(Vec(rd, x), Eval(rd, scale)), Vec(rd, weight))
  {
    hide Eval;
    forall i | 0 <= i < |x|
      ensures Vec(rd, NormRow(x, weight, scale))[i] == Times(Scaled(Vec(rd, x), Eval(rd, scale)), Vec(rd, weight))[i]
    {
      NormCell(rd, x[i], scale, weight[i]);
    }
  }

  lemma {:induction false} RmsReal(rd: Reading, x: seq<Scalar>, weight: seq<Scalar>, epsilon: Scalar)
    requires |weight| == |x|
    ensures Vec(rd, RmsRow(x, weight, epsilon)) == Rms(rd, Vec(rd, x), Vec(rd, weight), Eval(rd, epsilon))
  {
    hide Eval, RmsScale, Dot, Ratio, NormRow, Times, Scaled, Vec;
    EvalRmsScale(rd, x, epsilon);
    NormRowReal(rd, x, weight, RmsScale(x, epsilon));
  }

  lemma {:induction false} TurnReal(rd: Reading, i: nat, rotary: nat, position: nat, base: Scalar)
    ensures Angle(rd, i, rotary, position, base) == Turn(rd, i, rotary, position, Eval(rd, base))
  {
  }

  lemma {:induction false} RopePairReal(rd: Reading, x: seq<Scalar>, rotary: nat, position: nat, base: Scalar, i: nat)
    requires rotary <= |x| && i < rotary / 2
    ensures
      var left, right := Vec(rd, RopeRow(x, rotary, position, base)), Rope(rd, Vec(rd, x), rotary, position, Eval(rd, base));
      left[i] == right[i] && left[i + rotary / 2] == right[i + rotary / 2]
  {
    hide Eval, RopeRow, Angle, Turn;
    TurnReal(rd, i, rotary, position, base);
    RotatedPair(rd, x, rotary, position, base, i);
    assert (i + rotary / 2) - rotary / 2 == i;
  }

  lemma {:induction false} RopeReal(rd: Reading, x: seq<Scalar>, rotary: nat, position: nat, base: Scalar)
    requires rotary <= |x|
    ensures Vec(rd, RopeRow(x, rotary, position, base)) == Rope(rd, Vec(rd, x), rotary, position, Eval(rd, base))
  {
    hide Eval, RopeRow, Turn;
    var half := rotary / 2;
    var left, right := Vec(rd, RopeRow(x, rotary, position, base)), Rope(rd, Vec(rd, x), rotary, position, Eval(rd, base));
    forall i | 0 <= i < |x|
      ensures left[i] == right[i]
    {
      if i < half {
        RopePairReal(rd, x, rotary, position, base, i);
      } else if i < half + half {
        RopePairReal(rd, x, rotary, position, base, i - half);
      } else {
        RotatedPair(rd, x, rotary, position, base, i);
      }
    }
  }

  lemma {:induction false} SigmoidReal(rd: Reading, x: Scalar)
    ensures Eval(rd, Sigmoid(x)) == Logistic(rd, Eval(rd, x))
  {
    hide Ratio;
    EvalOnePlus(rd, x);
    EvalDiv(rd, One, Add(One, Exp(Unary(FNeg, x))));
  }

  lemma {:induction false} EvalOnePlus(rd: Reading, x: Scalar)
    ensures Eval(rd, Add(One, Exp(Unary(FNeg, x)))) == 1.0 + rd.exp(-Eval(rd, x))
  {
    EvalAdd(rd, One, Exp(Unary(FNeg, x)));
    EvalExp(rd, Unary(FNeg, x));
  }

  lemma {:induction false} SiluReal(rd: Reading, x: Scalar)
    ensures Eval(rd, Silu(x)) == Swish(rd, Eval(rd, x))
  {
    EvalOnePlus(rd, x);
    hide Eval;
    EvalDiv(rd, x, Add(One, Exp(Unary(FNeg, x))));
    RatioOut(Eval(rd, x), 1.0 + rd.exp(-Eval(rd, x)));
  }

  lemma {:induction false} RatioOut(x: real, y: real)
    ensures Ratio(x, y) == x * Ratio(1.0, y)
  {
    if y != 0.0 {
      assert x / y == x * (1.0 / y);
    }
  }

  lemma {:induction false} ScaleReal(rd: Reading, x: seq<Scalar>, factor: Scalar)
    ensures Vec(rd, ScaleRow(x, factor)) == Scaled(Vec(rd, x), Eval(rd, factor))
  {
    hide Eval;
    forall i | 0 <= i < |x|
      ensures Vec(rd, ScaleRow(x, factor))[i] == Scaled(Vec(rd, x), Eval(rd, factor))[i]
    {
      EvalMul(rd, x[i], factor);
    }
  }

  lemma {:induction false} UnitReal(rd: Reading, x: seq<Scalar>)
    ensures Vec(rd, L2Row(x, L2Epsilon)) == Unit(rd, Vec(rd, x))
  {
    hide Eval, DotD, Dot, Ratio, ScaleRow, Scaled;
    var squares := DotD(x, x, |x|);
    EvalInner(rd, x, x);
    EvalNarrow(rd, squares);
    EvalAdd(rd, ToFloat(squares), L2Epsilon);
    EvalSqrt(rd, Add(ToFloat(squares), L2Epsilon));
    EvalDiv(rd, One, Sqrt(Add(ToFloat(squares), L2Epsilon)));
    EvalTiny(rd);
    ScaleReal(rd, x, Div(One, Sqrt(Add(ToFloat(squares), L2Epsilon))));
  }

  lemma EvalTiny(rd: Reading)
    ensures Eval(rd, L2Epsilon) == 0.000001 && Eval(rd, One) == 1.0
  {
  }

  lemma {:induction false} SumReal(rd: Reading, x: seq<Scalar>, y: seq<Scalar>)
    requires |x| == |y|
    ensures Vec(rd, AddRow(x, y)) == Sum(Vec(rd, x), Vec(rd, y))
  {
    hide Eval;
    forall i | 0 <= i < |x|
      ensures Vec(rd, AddRow(x, y))[i] == Sum(Vec(rd, x), Vec(rd, y))[i]
    {
      EvalAdd(rd, x[i], y[i]);
    }
  }

  lemma {:induction false} ActivateReal(rd: Reading, gate: seq<Scalar>, up: seq<Scalar>)
    requires |gate| == |up|
    ensures Vec(rd, Activate(gate, up)) == SwishTimes(rd, Vec(rd, gate), Vec(rd, up))
  {
    hide Eval, Silu, Swish;
    forall i | 0 <= i < |gate|
      ensures Vec(rd, Activate(gate, up))[i] == SwishTimes(rd, Vec(rd, gate), Vec(rd, up))[i]
    {
      EvalMul(rd, Silu(gate[i]), up[i]);
      SiluReal(rd, gate[i]);
    }
  }

  lemma {:induction false} FeedForwardReal(rd: Reading, c: Config, w: LayerWeights, x: seq<Scalar>)
    requires LayerFits(c, w) && |x| == c.hiddenSize
    ensures Vec(rd, FeedForwardRow(c, w, x)) == FeedForward(rd, c, w, Vec(rd, x))
  {
    hide Eval, LinearRow, Affine, Rows, MixerFits, Silu, Swish, Offset;
    var n, h := c.intermediateSize, c.hiddenSize;
    var gate, up := LinearRow(x, Rows(w.ffnGate, n, h)), LinearRow(x, Rows(w.ffnUp, n, h));
    LinearReal(rd, x, w.ffnGate, n);
    LinearReal(rd, x, w.ffnUp, n);
    ActivateReal(rd, gate, up);
    LinearReal(rd, Activate(gate, up), w.ffnDown, h);
  }
}
