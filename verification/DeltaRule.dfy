/** The algebra of the gated delta rule, with scalars read as real numbers. */
module DeltaRule {
  import opened Matrix
  import opened Scalars
  import opened Readings
  import opened Kernels
  import opened DeltaNet

  // ----- what one head update does -----

  lemma {:induction false} EvalMulAdd(rd: Reading, m: Scalar, k: Scalar, d: Scalar)
    ensures Eval(rd, Add(m, Mul(k, d))) == Eval(rd, m) + Eval(rd, k) * Eval(rd, d)
  {
    hide Eval;
    EvalAdd(rd, m, Mul(k, d));
    EvalMul(rd, k, d);
  }

  lemma {:induction false} EvalCorrection(rd: Reading, v: seq<Scalar>, recalled: seq<Scalar>, beta: Scalar, c: nat)
    requires |v| == |recalled| && c < |v|
    ensures Eval(rd, Correction(v, recalled, beta)[c])
            == (Eval(rd, v[c]) - Eval(rd, recalled[c])) * Eval(rd, beta)
  {
    hide Eval;
    var gap := Sub(v[c], recalled[c]);
    assert Correction(v, recalled, beta)[c] == Mul(gap, beta);
    EvalMul(rd, gap, beta);
    EvalSub(rd, v[c], recalled[c]);
  }

  /** After writing `delta` under `key`, the memory recalls for that key what it recalled before,
      plus `delta` scaled by the squared length of the key. */
  lemma {:induction false} RecallAfterWrite(rd: Reading, m: seq<seq<Scalar>>, key: seq<Scalar>, delta: seq<Scalar>,
                                            c: nat, n: nat)
    requires IsMatrix(m, |key|, |delta|) && c < |delta| && n <= |key|
    ensures Eval(rd, DotD(Column(Write(m, key, delta), |delta|, c), key, n))
            == Eval(rd, DotD(Column(m, |delta|, c), key, n)) + Eval(rd, delta[c]) * Eval(rd, DotD(key, key, n))
  {
    hide Write, Column, Eval, DotD, Add;
    var w := |delta|;
    var col, col' := Column(m, w, c), Column(Write(m, key, delta), w, c);
    if n == 0 {
      EvalDotZero(rd, col, key);
      EvalDotZero(rd, col', key);
      EvalDotZero(rd, key, key);
    } else {
      RecallAfterWrite(rd, m, key, delta, c, n - 1);
      EvalDot(rd, col, key, n);
      EvalDot(rd, col', key, n);
      EvalDot(rd, key, key, n);
      WriteCell(m, key, delta, n - 1, c);
      EvalMulAdd(rd, m[n - 1][c], key[n - 1], delta[c]);
      Distribute(Eval(rd, m[n - 1][c]), Eval(rd, key[n - 1]), Eval(rd, delta[c]), Eval(rd, DotD(key, key, n - 1)));
    }
  }

  lemma {:induction false} WriteCell(m: seq<seq<Scalar>>, key: seq<Scalar>, delta: seq<Scalar>, r: nat, c: nat)
    requires IsMatrix(m, |key|, |delta|) && r < |key| && c < |delta|
    ensures Write(m, key, delta)[r][c] == Add(m[r][c], Mul(key[r], delta[c]))
    ensures Column(Write(m, key, delta), |delta|, c)[r] == Add(m[r][c], Mul(key[r], delta[c]))
    ensures Column(m, |delta|, c)[r] == m[r][c]
  {
  }

  lemma {:induction false} Distribute(m: real, k: real, d: real, kk: real)
    ensures (m + k * d) * k == m * k + d * (k * k)
    ensures d * (kk + k * k) == d * kk + d * (k * k)
  {
    assert (m + k * d) * k == m * k + (k * d) * k;
    assert (k * d) * k == d * (k * k);
  }

  lemma {:induction false} EvalRecall(rd: Reading, m: seq<seq<Scalar>>, key: seq<Scalar>, w: nat, c: nat)
    requires IsMatrix(m, |key|, w) && c < w
    ensures Eval(rd, Recall(m, key, w)[c]) == Eval(rd, DotD(Column(m, w, c), key, |key|))
  {
    assert Recall(m, key, w)[c] == ToFloat(DotD(Column(m, w, c), key, |key|));
  }

  /** `S' = dS + k (b (v - (dS)^T k))^T`, cell by cell. */
  lemma {:induction false} UpdateIsDeltaRule(rd: Reading, m: seq<seq<Scalar>>, key: seq<Scalar>, v: seq<Scalar>,
                                             beta: Scalar, decay: Scalar, r: nat, c: nat)
    requires IsMatrix(m, |key|, |v|) && r < |key| && c < |v|
    ensures
      var d, b := Eval(rd, decay), Eval(rd, beta);
      var recalled := Eval(rd, Recall(Decayed(m, decay), key, |v|)[c]);
      Eval(rd, UpdateHead(m, key, v, beta, decay)[r][c])
      == Eval(rd, m[r][c]) * d + Eval(rd, key[r]) * ((Eval(rd, v[c]) - recalled) * b)
  {
    hide Recall, Write, Correction, Eval, Add;
    var dm := Decayed(m, decay);
    var recalled := Recall(dm, key, |v|);
    EvalCorrection(rd, v, recalled, beta, c);
    WriteCell(dm, key, Correction(v, recalled, beta), r, c);
    EvalMulAdd(rd, dm[r][c], key[r], Correction(v, recalled, beta)[c]);
    DecayedCell(rd, m, decay, r, c);
  }

  lemma {:induction false} DecayedCell(rd: Reading, m: seq<seq<Scalar>>, decay: Scalar, r: nat, c: nat)
    requires r < |m| && c < |m[r]|
    ensures Eval(rd, Decayed(m, decay)[r][c]) == Eval(rd, m[r][c]) * Eval(rd, decay)
  {
    assert Decayed(m, decay)[r][c] == Mul(m[r][c], decay);
  }

  /** `v - S'^T k = (1 - b (k . k)) (v - (dS)^T k)`, component by component. */
  lemma {:induction false} ResidualShrinks(rd: Reading, m: seq<seq<Scalar>>, key: seq<Scalar>, v: seq<Scalar>,
                                           beta: Scalar, decay: Scalar, c: nat)
    requires IsMatrix(m, |key|, |v|) && c < |v|
    ensures
      var n := |key|;
      var b, kk := Eval(rd, beta), Eval(rd, DotD(key, key, n));
      var before := Eval(rd, v[c]) - Eval(rd, Recall(Decayed(m, decay), key, |v|)[c]);
      var after := Eval(rd, v[c]) - Eval(rd, Recall(UpdateHead(m, key, v, beta, decay), key, |v|)[c]);
      after == (1.0 - b * kk) * before
  {
    hide DotD, Decayed, Correction, Write, Eval, Recall;
    var n, w := |key|, |v|;
    var dm := Decayed(m, decay);
    var delta := Correction(v, Recall(dm, key, w), beta);
    RecallAfterWrite(rd, dm, key, delta, c, n);
    EvalRecall(rd, dm, key, w, c);
    EvalRecall(rd, Write(dm, key, delta), key, w, c);
    EvalCorrection(rd, v, Recall(dm, key, w), beta, c);
    Factor(Eval(rd, v[c]), Eval(rd, Recall(dm, key, w)[c]), Eval(rd, beta), Eval(rd, DotD(key, key, n)));
  }

  lemma {:induction false} Factor(x: real, q: real, b: real, kk: real)
    ensures x - (q + ((x - q) * b) * kk) == (1.0 - b * kk) * (x - q)
  {
    assert ((x - q) * b) * kk == (b * kk) * (x - q);
  }

  // ----- the normalised key and the gate -----

  lemma {:induction false} DotNonNegative(rd: Reading, x: seq<Scalar>, n: nat)
    requires n <= |x|
    ensures Eval(rd, DotD(x, x, n)) >= 0.0
  {
    if n == 0 {
      EvalDotZero(rd, x, x);
    } else {
      DotNonNegative(rd, x, n - 1);
      EvalDot(rd, x, x, n);
      SquareNonNegative(Eval(rd, x[n - 1]));
    }
  }

  lemma {:induction false} SquareNonNegative(x: real)
    ensures x * x >= 0.0
  {
  }

  lemma {:induction false} DotScaled(rd: Reading, x: seq<Scalar>, factor: Scalar, n: nat)
    requires n <= |x|
    ensures
      var f := Eval(rd, factor);
      var y := ScaleRow(x, factor);
      Eval(rd, DotD(y, y, n)) == (f * f) * Eval(rd, DotD(x, x, n))
  {
    hide Eval, DotD;
    var y := ScaleRow(x, factor);
    if n == 0 {
      EvalDotZero(rd, x, x);
      EvalDotZero(rd, y, y);
    } else {
      DotScaled(rd, x, factor, n - 1);
      EvalDot(rd, x, x, n);
      EvalDot(rd, y, y, n);
      EvalMul(rd, x[n - 1], factor);
      SquareOut(Eval(rd, x[n - 1]), Eval(rd, factor), Eval(rd, DotD(x, x, n - 1)));
    }
  }

  lemma {:induction false} SquareOut(x: real, f: real, rest: real)
    ensures (f * f) * rest + (x * f) * (x * f) == (f * f) * (rest + x * x)
  {
    assert (x * f) * (x * f) == (f * f) * (x * x);
    assert (f * f) * (rest + x * x) == (f * f) * rest + (f * f) * (x * x);
  }

  /** Normalising with a positive epsilon leaves a squared length of `s / (s + eps)`, below one. */
  lemma {:induction false} NormalizedLength(rd: Reading, x: seq<Scalar>, epsilon: Scalar)
    requires Lawful(rd) && Eval(rd, epsilon) > 0.0
    ensures
      var s, e := Eval(rd, DotD(x, x, |x|)), Eval(rd, epsilon);
      var y := L2Row(x, epsilon);
      && s + e > 0.0
      && Eval(rd, DotD(y, y, |y|)) == s / (s + e)
      && 0.0 <= Eval(rd, DotD(y, y, |y|)) < 1.0
  {
    hide Eval, DotD;
    var s, e := Eval(rd, DotD(x, x, |x|)), Eval(rd, epsilon);
    DotNonNegative(rd, x, |x|);
    var root := rd.sqrt(s + e);
    assert root * root == s + e;
    EvalScale(rd, DotD(x, x, |x|), epsilon);
    DotScaled(rd, x, Div(One, Sqrt(Add(ToFloat(DotD(x, x, |x|)), epsilon))), |x|);
    InverseSquare(root, s, e);
  }

  lemma {:induction false} EvalScale(rd: Reading, squares: Scalar, epsilon: Scalar)
    requires rd.sqrt(Eval(rd, squares) + Eval(rd, epsilon)) != 0.0
    ensures Eval(rd, Div(One, Sqrt(Add(ToFloat(squares), epsilon))))
            == 1.0 / rd.sqrt(Eval(rd, squares) + Eval(rd, epsilon))
  {
    assert Eval(rd, ToFloat(squares)) == Eval(rd, squares);
    assert Eval(rd, Add(ToFloat(squares), epsilon)) == Eval(rd, squares) + Eval(rd, epsilon);
  }

  lemma {:induction false} InverseSquare(root: real, s: real, e: real)
    requires root != 0.0 && root * root == s + e && s >= 0.0 && e > 0.0
    ensures ((1.0 / root) * (1.0 / root)) * s == s / (s + e)
    ensures 0.0 <= s / (s + e) < 1.0
  {
    var f, t := 1.0 / root, s + e;
    assert f * root == 1.0;
    assert (f * f) * (root * root) == (f * root) * (f * root);
    assert (f * f) * t == 1.0;
    assert ((f * f) * s) * t == s * ((f * f) * t) == s;
    Quotient((f * f) * s, s, t);
    FractionBelowOne(s, t);
  }

  lemma {:induction false} Quotient(q: real, s: real, t: real)
    requires t > 0.0 && q * t == s
    ensures q == s / t
  {
    assert (s / t) * t == s;
    assert (q - s / t) * t == 0.0;
  }

  lemma {:induction false} FractionBelowOne(s: real, t: real)
    requires 0.0 <= s < t
    ensures 0.0 <= s / t < 1.0
  {
    assert (s / t) * t == s;
  }

  lemma {:induction false} SigmoidRange(rd: Reading, x: Scalar)
    requires Lawful(rd)
    ensures 0.0 < Eval(rd, Sigmoid(x)) < 1.0
  {
    var e := rd.exp(-Eval(rd, x));
    assert e > 0.0;
    assert Eval(rd, Exp(Unary(FNeg, x))) == e by {
      assert Eval(rd, Unary(FNeg, x)) == -Eval(rd, x);
    }
    assert Eval(rd, Add(One, Exp(Unary(FNeg, x)))) == 1.0 + e;
    assert Eval(rd, Sigmoid(x)) == 1.0 / (1.0 + e);
  }

  lemma {:induction false} Contracts(b: real, kk: real, before: real, after: real)
    requires 0.0 < b < 1.0 && 0.0 <= kk < 1.0 && after == (1.0 - b * kk) * before
    ensures before >= 0.0 ==> 0.0 <= after <= before
    ensures before <= 0.0 ==> before <= after <= 0.0
  {
    ProductBelowOne(b, kk);
    var f := 1.0 - b * kk;
    Between(f, before);
  }

  lemma {:induction false} Between(f: real, x: real)
    requires 0.0 < f <= 1.0
    ensures x >= 0.0 ==> 0.0 <= f * x <= x
    ensures x <= 0.0 ==> x <= f * x <= 0.0
  {
    if x >= 0.0 {
      assert (1.0 - f) * x >= 0.0;
    } else {
      assert (1.0 - f) * x <= 0.0;
    }
    assert f * x == x - (1.0 - f) * x;
  }

  lemma {:induction false} ProductBelowOne(b: real, kk: real)
    requires 0.0 < b < 1.0 && 0.0 <= kk < 1.0
    ensures 0.0 <= b * kk < 1.0
  {
    assert b * (1.0 - kk) > 0.0;
    assert b * kk == b - b * (1.0 - kk);
  }

  lemma TinyPositive(rd: Reading)
    ensures Eval(rd, L2Epsilon) > 0.0
  {
  }

  /** One step of a value head: with its own normalised key and sigmoid gate, no component of
      what the head still gets wrong for that key grows or changes sign. */
  lemma {:induction false} StepContracts(rd: Reading, args: DeltaArgs, weights: DeltaWeights, m: seq<seq<Scalar>>,
                                         x: seq<Scalar>, y: seq<Scalar>, h: nat, c: nat)
    requires Lawful(rd)
    requires args.Valid() && FitsDelta(args, weights) && h < args.valueHeads && c < args.valueDim
    requires |x| == args.Stride() && |y| == args.ConvDim() && IsMatrix(m, args.keyDim, args.valueDim)
    ensures
      var key, v := KeyOf(args, y, KeyHead(args, h)), ValueOf(args, y, h);
      var before := Eval(rd, v[c]) - Eval(rd, Recall(Decayed(m, Decay(args, weights, x, h)), key, args.valueDim)[c]);
      var after := Eval(rd, v[c]) - Eval(rd, Recall(StepHead(args, weights, m, x, y, h), key, args.valueDim)[c]);
      && (before >= 0.0 ==> 0.0 <= after <= before)
      && (before <= 0.0 ==> before <= after <= 0.0)
  {
    hide Recall, UpdateHead, L2Row, Decayed, DotD, Eval, Sigmoid, Decay;
    var key, v := KeyOf(args, y, KeyHead(args, h)), ValueOf(args, y, h);
    var beta, decay := Beta(args, x, h), Decay(args, weights, x, h);
    TinyPositive(rd);
    ResidualShrinks(rd, m, key, v, beta, decay, c);
    SigmoidRange(rd, x[args.ConvDim() + h]);
    RowInside(args.keyHeads, args.keyDim, KeyHead(args, h));
    var at := args.KeySize() + Offset(KeyHead(args, h), args.keyDim);
    NormalizedLength(rd, y[at..at + args.keyDim], L2Epsilon);
    var before := Eval(rd, v[c]) - Eval(rd, Recall(Decayed(m, decay), key, args.valueDim)[c]);
    var after := Eval(rd, v[c]) - Eval(rd, Recall(UpdateHead(m, key, v, beta, decay), key, args.valueDim)[c]);
    Contracts(Eval(rd, beta), Eval(rd, DotD(key, key, |key|)), before, after);
  }

  // ----- the decay gate -----

  lemma {:induction false} EvalSoftplus(rd: Reading, x: Scalar)
    ensures
      var z := Eval(rd, x);
      Eval(rd, Softplus(x)) == if z > 20.0 then z else if z < -20.0 then rd.exp(z) else rd.log1p(rd.exp(z))
  {
    EvalExp(rd, x);
    assert Eval(rd, Unary(FLog1p, Exp(x))) == rd.log1p(Eval(rd, Exp(x)));
    assert Eval(rd, Unary(FNeg, Twenty)) == -20.0;
  }

  lemma {:induction false} SoftplusPositive(rd: Reading, x: Scalar)
    requires Lawful(rd) && GateLaws(rd)
    ensures Eval(rd, Softplus(x)) > 0.0
  {
    hide Eval;
    EvalSoftplus(rd, x);
    assert rd.exp(Eval(rd, x)) > 0.0;
  }

  /** With a negative recurrence weight the gate lies strictly between zero and one, whatever the token. */
  lemma {:induction false} DecayRange(rd: Reading, args: DeltaArgs, weights: DeltaWeights, x: seq<Scalar>, h: nat)
    requires Lawful(rd) && GateLaws(rd)
    requires |x| == args.Stride() && FitsDelta(args, weights) && h < args.valueHeads
    requires Eval(rd, weights.recurrentA[h]) < 0.0
    ensures 0.0 < Eval(rd, Decay(args, weights, x, h)) < 1.0
  {
    hide Eval, Softplus;
    var rate := Softplus(Add(x[args.ConvDim() + args.valueHeads + h], weights.dtBias[h]));
    SoftplusPositive(rd, Add(x[args.ConvDim() + args.valueHeads + h], weights.dtBias[h]));
    EvalMul(rd, weights.recurrentA[h], rate);
    EvalExp(rd, Mul(weights.recurrentA[h], rate));
    NegativeProduct(Eval(rd, weights.recurrentA[h]), Eval(rd, rate));
    var power := Eval(rd, Mul(weights.recurrentA[h], rate));
    assert rd.exp(power) < 1.0 && rd.exp(power) > 0.0;
  }

  lemma {:induction false} NegativeProduct(a: real, b: real)
    requires a < 0.0 && b > 0.0
    ensures a * b < 0.0
  {
  }

  /** Where the head already answers the value it is given, a step with a negative recurrence weight
      shrinks what it holds: no cell of its matrix grows or changes sign, and none but zero stays. */
  lemma {:induction false} QuietStepShrinks(rd: Reading, args: DeltaArgs, weights: DeltaWeights, m: seq<seq<Scalar>>,
                                            x: seq<Scalar>, y: seq<Scalar>, h: nat, r: nat, c: nat)
    requires Lawful(rd) && GateLaws(rd)
    requires args.Valid() && FitsDelta(args, weights) && h < args.valueHeads && r < args.keyDim && c < args.valueDim
    requires |x| == args.Stride() && |y| == args.ConvDim() && IsMatrix(m, args.keyDim, args.valueDim)
    requires Eval(rd, weights.recurrentA[h]) < 0.0
    requires
      var key, v := KeyOf(args, y, KeyHead(args, h)), ValueOf(args, y, h);
      Eval(rd, v[c]) == Eval(rd, Recall(Decayed(m, Decay(args, weights, x, h)), key, args.valueDim)[c])
    ensures
      var before, after := Eval(rd, m[r][c]), Eval(rd, StepHead(args, weights, m, x, y, h)[r][c]);
      && (before > 0.0 ==> 0.0 < after < before)
      && (before < 0.0 ==> before < after < 0.0)
      && (before == 0.0 ==> after == 0.0)
  {
    hide Recall, UpdateHead, L2Row, Decayed, Eval, Decay, Beta;
    var key, v := KeyOf(args, y, KeyHead(args, h)), ValueOf(args, y, h);
    var decay := Decay(args, weights, x, h);
    UpdateIsDeltaRule(rd, m, key, v, Beta(args, x, h), decay, r, c);
    DecayRange(rd, args, weights, x, h);
    var before, after := Eval(rd, m[r][c]), Eval(rd, StepHead(args, weights, m, x, y, h)[r][c]);
    ShrinksStrictly(before, after, Eval(rd, decay), Eval(rd, key[r]), Eval(rd, v[c]),
                    Eval(rd, Recall(Decayed(m, decay), key, args.valueDim)[c]), Eval(rd, Beta(args, x, h)));
  }

  lemma {:induction false} ShrinksStrictly(before: real, after: real, f: real, k: real, v: real, recalled: real, b: real)
    requires 0.0 < f < 1.0 && v == recalled && after == before * f + k * ((v - recalled) * b)
    ensures before > 0.0 ==> 0.0 < after < before
    ensures before < 0.0 ==> before < after < 0.0
    ensures before == 0.0 ==> after == 0.0
  {
    assert (v - recalled) * b == 0.0;
    assert after == before * f;
    StrictlyBetween(before, f);
  }

  lemma {:induction false} StrictlyBetween(x: real, f: real)
    requires 0.0 < f < 1.0
    ensures x > 0.0 ==> 0.0 < x * f < x
    ensures x < 0.0 ==> x < x * f < 0.0
  {
    assert x > 0.0 ==> x * f > 0.0 && x * (1.0 - f) > 0.0;
    assert x < 0.0 ==> x * f < 0.0 && x * (1.0 - f) < 0.0;
    assert x * (1.0 - f) == x - x * f;
  }
}
