/** What attention means over the reals: its weights are a distribution, its output a mean of the
    values, and the rotation keeps lengths and sees only differences of positions. */
module AttentionLaws {
  import opened Prelude
  import opened Scalars
  import opened Readings
  import opened Kernels
  import opened Attention

  // ----- the weights -----

  lemma {:induction false} EvalShifted(rd: Reading, logits: seq<Scalar>, top: Scalar, j: nat)
    requires j < |logits|
    ensures Eval(rd, Shifted(logits, top)[j]) == rd.exp(Eval(rd, logits[j]) - Eval(rd, top))
  {
    hide Eval;
    assert Shifted(logits, top)[j] == ToFloat(Unary(DExp, SubD(logits[j], top)));
    EvalExpD(rd, logits[j], top);
  }

  lemma {:induction false} EvalExpD(rd: Reading, x: Scalar, y: Scalar)
    ensures Eval(rd, ToFloat(Unary(DExp, SubD(x, y)))) == rd.exp(Eval(rd, x) - Eval(rd, y))
  {
    assert Eval(rd, SubD(x, y)) == Eval(rd, x) - Eval(rd, y);
    assert Eval(rd, Unary(DExp, SubD(x, y))) == rd.exp(Eval(rd, x) - Eval(rd, y));
  }

  lemma {:induction false} EvalNormalized(rd: Reading, p: seq<Scalar>, total: Scalar, j: nat)
    requires j < |p|
    ensures Eval(rd, Normalized(p, total)[j]) == Ratio(Eval(rd, p[j]), Eval(rd, total))
  {
    hide Ratio;
    assert Normalized(p, total)[j] == ToFloat(DivD(p[j], total));
    assert Eval(rd, DivD(p[j], total)) == Ratio(Eval(rd, p[j]), Eval(rd, total));
  }

  lemma {:induction false} EvalSumD(rd: Reading, p: seq<Scalar>, n: nat)
    requires n <= |p|
    ensures Eval(rd, SumD(p, n)) == Total(Vec(rd, p)[..n])
  {
    if n > 0 {
      EvalSumD(rd, p, n - 1);
      TotalPrefix(Vec(rd, p), n - 1);
      assert Eval(rd, AddD(SumD(p, n - 1), p[n - 1])) == Eval(rd, SumD(p, n - 1)) + Eval(rd, p[n - 1]);
    }
  }

  lemma {:induction false} TotalPositive(v: seq<real>)
    requires |v| > 0 && forall i :: 0 <= i < |v| ==> v[i] > 0.0
    ensures Total(v) > 0.0
  {
    if |v| > 1 {
      TotalPositive(v[..|v| - 1]);
    } else {
      assert Total(v[..0]) == 0.0;
    }
  }

  /** The exponentials of some numbers, each shifted down by the same one. */
  function Exponentials(rd: Reading, xs: seq<real>, shift: real): (es: seq<real>)
    ensures |es| == |xs|
  {
    seq(|xs|, j requires 0 <= j < |xs| => rd.exp(xs[j] - shift))
  }

  lemma {:induction false} SoftmaxShifted(rd: Reading, logits: seq<Scalar>, j: nat)
    requires Lawful(rd) && j < |logits|
    ensures
      var es := Exponentials(rd, Vec(rd, logits), Eval(rd, MaxLogit(logits, |logits|)));
      Total(es) > 0.0 && es[j] > 0.0 && Eval(rd, Softmax(logits)[j]) == es[j] / Total(es)
  {
    hide Eval, Shifted, Normalized, SumD, MaxLogit, Total;
    var top := MaxLogit(logits, |logits|);
    var shifted := Shifted(logits, top);
    var es := Exponentials(rd, Vec(rd, logits), Eval(rd, top));
    forall k | 0 <= k < |logits|
      ensures Vec(rd, shifted)[k] == es[k]
    {
      EvalShifted(rd, logits, top, k);
    }
    assert Vec(rd, shifted) == es && es[..|es|] == es;
    TotalPositive(es);
    EvalSumD(rd, shifted, |shifted|);
    EvalNormalized(rd, shifted, SumD(shifted, |shifted|), j);
  }

  /** For any nonempty list of logits the weights are positive and sum to one. */
  lemma {:induction false} SoftmaxIsDistribution(rd: Reading, logits: seq<Scalar>)
    requires Lawful(rd) && |logits| > 0
    ensures forall j :: 0 <= j < |logits| ==> Eval(rd, Softmax(logits)[j]) > 0.0
    ensures Total(Vec(rd, Softmax(logits))) == 1.0
  {
    hide Eval, Softmax, Total;
    var es := Exponentials(rd, Vec(rd, logits), Eval(rd, MaxLogit(logits, |logits|)));
    SoftmaxShifted(rd, logits, 0);
    var f := 1.0 / Total(es);
    assert f > 0.0;
    forall j | 0 <= j < |logits|
      ensures Vec(rd, Softmax(logits))[j] == Scaled(es, f)[j] > 0.0
    {
      SoftmaxShifted(rd, logits, j);
      QuotientPositive(es[j], Total(es));
    }
    assert Vec(rd, Softmax(logits)) == Scaled(es, f);
    TotalScaled(es, f);
  }

  lemma {:induction false} QuotientPositive(x: real, y: real)
    requires y > 0.0
    ensures x / y == x * (1.0 / y)
    ensures x > 0.0 ==> x / y > 0.0
  {
    assert x / y == (x * 1.0) / y;
  }

  function ExpAll(rd: Reading, xs: seq<real>): (es: seq<real>)
    ensures |es| == |xs|
  {
    seq(|xs|, k requires 0 <= k < |xs| => rd.exp(xs[k]))
  }

  lemma ShiftedExp(rd: Reading, x: real, shift: real)
    requires ExpAdds(rd)
    ensures rd.exp(x - shift) == rd.exp(x) * rd.exp(-shift)
  {
    assert x - shift == x + -shift;
  }

  lemma {:induction false} ShiftIsFactor(rd: Reading, xs: seq<real>, shift: real)
    requires ExpAdds(rd)
    ensures Exponentials(rd, xs, shift) == Scaled(ExpAll(rd, xs), rd.exp(-shift))
  {
    hide ExpAdds;
    forall k | 0 <= k < |xs|
      ensures Exponentials(rd, xs, shift)[k] == Scaled(ExpAll(rd, xs), rd.exp(-shift))[k]
    {
      ShiftedExp(rd, xs[k], shift);
    }
  }

  /** A weight is the exponential of its logit over the sum of all the exponentials: the running
      maximum that is subtracted first does not show in the result. */
  lemma {:induction false} SoftmaxIgnoresShift(rd: Reading, logits: seq<Scalar>, j: nat)
    requires Lawful(rd) && ExpAdds(rd) && j < |logits|
    ensures
      var es := ExpAll(rd, Vec(rd, logits));
      Total(es) > 0.0 && Eval(rd, Softmax(logits)[j]) == es[j] / Total(es)
  {
    hide Eval, Softmax, Total, ExpAdds, Exponentials;
    var top := Eval(rd, MaxLogit(logits, |logits|));
    var es := ExpAll(rd, Vec(rd, logits));
    SoftmaxShifted(rd, logits, j);
    TotalPositive(es);
    ShiftIsFactor(rd, Vec(rd, logits), top);
    TotalScaled(es, rd.exp(-top));
    CommonFactor(es[j], Total(es), rd.exp(-top));
  }

  lemma {:induction false} CommonFactor(x: real, y: real, f: real)
    requires y > 0.0 && f > 0.0
    ensures y * f > 0.0 && (x * f) / (y * f) == x / y
  {
    var q := x / y;
    assert q * y == x;
    assert q * (y * f) == x * f;
    UniqueQuotient(q, x * f, y * f);
  }

  lemma {:induction false} UniqueQuotient(q: real, x: real, y: real)
    requires y != 0.0 && q * y == x
    ensures q == x / y
  {
    assert (x / y) * y == x;
    assert (q - x / y) * y == 0.0;
  }

  // ----- the running maximum -----

  /** What is subtracted is the largest logit, so no exponent is above zero. */
  lemma {:induction false} MaxLogitIsLargest(rd: Reading, logits: seq<Scalar>, n: nat)
    requires n <= |logits| && forall j :: 0 <= j < n ==> rd.lowest <= Eval(rd, logits[j])
    ensures forall j :: 0 <= j < n ==> Eval(rd, logits[j]) <= Eval(rd, MaxLogit(logits, n))
    ensures n > 0 ==> exists j :: 0 <= j < n && Eval(rd, MaxLogit(logits, n)) == Eval(rd, logits[j])
  {
    if n > 0 {
      MaxLogitIsLargest(rd, logits, n - 1);
      EvalMax(rd, MaxLogit(logits, n - 1), logits[n - 1]);
      hide Eval;
      if n == 1 {
        assert Eval(rd, MaxLogit(logits, 0)) == rd.lowest by { LowestRead(rd); }
      }
    }
  }

  lemma LowestRead(rd: Reading)
    ensures Eval(rd, NegInfinity) == rd.lowest
  {
  }

  lemma {:induction false} EvalMax(rd: Reading, x: Scalar, y: Scalar)
    ensures Eval(rd, Max(x, y)) == if Eval(rd, x) < Eval(rd, y) then Eval(rd, y) else Eval(rd, x)
  {
  }

  // ----- the output -----

  lemma {:induction false} WeightedMean(p: seq<real>, v: seq<real>, lo: real, hi: real, n: nat)
    requires n <= |p| == |v|
    requires forall j :: 0 <= j < n ==> p[j] >= 0.0 && lo <= v[j] <= hi
    ensures lo * Total(p[..n]) <= Total(Times(p, v)[..n]) <= hi * Total(p[..n])
  {
    hide Total;
    if n == 0 {
      TotalEmpty();
      assert Times(p, v)[..0] == [] && p[..0] == [];
    } else {
      WeightedMean(p, v, lo, hi, n - 1);
      TotalPrefix(p, n - 1);
      TotalPrefix(Times(p, v), n - 1);
      BoundProduct(p[n - 1], v[n - 1], lo, hi);
    }
  }

  lemma {:induction false} BoundProduct(p: real, v: real, lo: real, hi: real)
    requires p >= 0.0 && lo <= v <= hi
    ensures lo * p <= p * v <= hi * p
  {
    assert p * (v - lo) >= 0.0 && p * (hi - v) >= 0.0;
  }

  lemma {:induction false} EvalMix(rd: Reading, p: seq<Scalar>, values: seq<seq<Scalar>>, dim: nat, n: nat, d: nat)
    requires n <= |p| == |values| && d < dim
    requires forall j :: 0 <= j < |values| ==> |values[j]| == dim
    ensures Eval(rd, Mix(p, values, dim, n)[d])
            == Total(Times(Vec(rd, p), Vec(rd, Column(values, dim, d)))[..n])
  {
    hide DotF;
    EvalDotFTotal(rd, Zero, p, Column(values, dim, d), n);
  }

  /** Every component of a head's output lies between the least and the greatest of that component
      among the values of the tokens attended. */
  lemma {:induction false} OutputBetweenValues(rd: Reading, q: seq<Scalar>, keys: seq<seq<Scalar>>, values: seq<seq<Scalar>>,
                                               d: nat, lo: real, hi: real)
    requires Lawful(rd) && |keys| == |values| > 0 && d < |q|
    requires forall j :: 0 <= j < |keys| ==> |keys[j]| == |q| && |values[j]| == |q|
    requires forall j :: 0 <= j < |values| ==> lo <= Eval(rd, values[j][d]) <= hi
    ensures lo <= Eval(rd, HeadOutput(q, keys, values)[d]) <= hi
  {
    hide Eval, Softmax, Logits, Total, Mix;
    var n, p := |keys|, Softmax(Logits(q, keys));
    var weights, column := Vec(rd, p), Vec(rd, Column(values, |q|, d));
    SoftmaxIsDistribution(rd, Logits(q, keys));
    EvalMix(rd, p, values, |q|, n, d);
    assert weights[..n] == weights;
    WeightedMean(weights, column, lo, hi, n);
  }

  /** Query heads share key/value heads in consecutive groups of equal size. */
  lemma {:induction false} KvHeadGroups(args: FullArgs, h: nat, g: nat)
    requires args.Valid() && h < args.queryHeads
    ensures
      var size := args.queryHeads / args.kvHeads;
      && size * args.kvHeads == args.queryHeads
      && (args.KvHead(h) == g <==> g * size <= h < g * size + size)
  {
    var size := args.queryHeads / args.kvHeads;
    GroupInside(args.queryHeads, args.kvHeads, h);
    assert args.queryHeads == args.kvHeads * size;
    if g * size <= h < g * size + size {
      QuotientUnique(h, size, g, h - g * size);
    }
  }

  // ----- rotation -----

  /** The angle a pair is turned by at a position. */
  function Angle(rd: Reading, pair: nat, rotary: nat, position: nat, ropeBase: Scalar): real {
    Ratio(position as real, rd.pow(Eval(rd, ropeBase), Ratio((2 * pair) as real, rotary as real)))
  }

  lemma {:induction false} EvalAngle(rd: Reading, pair: nat, rotary: nat, position: nat, ropeBase: Scalar)
    ensures Eval(rd, RopeAngle(pair, rotary, position, ropeBase)) == Angle(rd, pair, rotary, position, ropeBase)
  {
    hide Ratio;
    var exponent := DivD(OfNat(2 * pair), OfNat(rotary));
    assert Eval(rd, exponent) == Ratio((2 * pair) as real, rotary as real);
    assert Eval(rd, Binary(DPow, ropeBase, exponent)) == rd.pow(Eval(rd, ropeBase), Eval(rd, exponent));
  }

  lemma {:induction false} EvalRotate(rd: Reading, x0: Scalar, x1: Scalar, theta: Scalar)
    ensures
      var a := Eval(rd, theta);
      && Eval(rd, RotateFirst(x0, x1, theta)) == Eval(rd, x0) * rd.cos(a) - Eval(rd, x1) * rd.sin(a)
      && Eval(rd, RotateSecond(x0, x1, theta)) == Eval(rd, x0) * rd.sin(a) + Eval(rd, x1) * rd.cos(a)
  {
    hide Eval;
    var c, s := ToFloat(Unary(DCos, theta)), ToFloat(Unary(DSin, theta));
    EvalTurn(rd, theta);
    EvalMul(rd, x0, c);
    EvalMul(rd, x1, s);
    EvalMul(rd, x0, s);
    EvalMul(rd, x1, c);
    EvalSub(rd, Mul(x0, c), Mul(x1, s));
    EvalAdd(rd, Mul(x0, s), Mul(x1, c));
  }

  lemma {:induction false} EvalTurn(rd: Reading, theta: Scalar)
    ensures Eval(rd, ToFloat(Unary(DCos, theta))) == rd.cos(Eval(rd, theta))
    ensures Eval(rd, ToFloat(Unary(DSin, theta))) == rd.sin(Eval(rd, theta))
  {
    assert Eval(rd, Unary(DCos, theta)) == rd.cos(Eval(rd, theta));
    assert Eval(rd, Unary(DSin, theta)) == rd.sin(Eval(rd, theta));
  }

  /** Places `i` and `i + rotary / 2` are turned together; places past the rotary part stay. */
  lemma {:induction false} RotatedPair(rd: Reading, x: seq<Scalar>, rotary: nat, position: nat, ropeBase: Scalar, i: nat)
    requires rotary <= |x|
    ensures i < rotary / 2 ==>
      var a := Angle(rd, i, rotary, position, ropeBase);
      var x0, x1 := Eval(rd, x[i]), Eval(rd, x[i + rotary / 2]);
      var y := RopeRow(x, rotary, position, ropeBase);
      Eval(rd, y[i]) == x0 * rd.cos(a) - x1 * rd.sin(a) && Eval(rd, y[i + rotary / 2]) == x0 * rd.sin(a) + x1 * rd.cos(a)
    ensures 2 * (rotary / 2) <= i < |x| ==> RopeRow(x, rotary, position, ropeBase)[i] == x[i]
  {
    hide Eval, RotateFirst, RotateSecond, RopeAngle, Angle;
    var half := rotary / 2;
    if i < half {
      EvalAngle(rd, i, rotary, position, ropeBase);
      EvalRotate(rd, x[i], x[i + half], RopeAngle(i, rotary, position, ropeBase));
    }
  }

  lemma {:induction false} TurnedProducts(rd: Reading, x0: real, x1: real, y0: real, y1: real, a: real, b: real)
    requires AngleLaws(rd)
    ensures TurnFirst(rd, x0, x1, a) * TurnFirst(rd, y0, y1, b) + TurnSecond(rd, x0, x1, a) * TurnSecond(rd, y0, y1, b)
            == PairAt(rd, x0, x1, y0, y1, a - b)
  {
    var ca, sa, cb, sb := rd.cos(a), rd.sin(a), rd.cos(b), rd.sin(b);
    Expand(x0, x1, y0, y1, ca, sa, cb, sb);
    assert rd.cos(a - b) == ca * cb + sa * sb && rd.sin(a - b) == sa * cb - ca * sb;
  }

  lemma {:induction false} Expand(x0: real, x1: real, y0: real, y1: real, ca: real, sa: real, cb: real, sb: real)
    ensures (x0 * ca - x1 * sa) * (y0 * cb - y1 * sb) + (x0 * sa + x1 * ca) * (y0 * sb + y1 * cb)
            == (x0 * y0 + x1 * y1) * (ca * cb + sa * sb) + (x0 * y1 - x1 * y0) * (sa * cb - ca * sb)
  {
  }

  lemma {:induction false} TotalAppend(a: seq<real>, b: seq<real>)
    ensures Total(a + b) == Total(a) + Total(b)
  {
    if |b| == 0 {
      assert a + b == a;
    } else {
      assert (a + b)[..|a + b| - 1] == a + b[..|b| - 1];
      TotalAppend(a, b[..|b| - 1]);
    }
  }

  function Plus(a: seq<real>, b: seq<real>): (c: seq<real>)
    requires |a| == |b|
    ensures |c| == |a|
  {
    seq(|a|, i requires 0 <= i < |a| => a[i] + b[i])
  }

  lemma {:induction false} TotalPlus(a: seq<real>, b: seq<real>, n: nat)
    requires n <= |a| == |b|
    ensures Total(Plus(a, b)[..n]) == Total(a[..n]) + Total(b[..n])
  {
    hide Total;
    if n == 0 {
      TotalEmpty();
      assert Plus(a, b)[..0] == [] && a[..0] == [] && b[..0] == [];
    } else {
      TotalPlus(a, b, n - 1);
      TotalPrefix(a, n - 1);
      TotalPrefix(b, n - 1);
      TotalPrefix(Plus(a, b), n - 1);
    }
  }

  /** A sum is that of its pairs `half` apart, and of what is left. */
  lemma {:induction false} TotalInPairs(p: seq<real>, half: nat)
    requires 2 * half <= |p|
    ensures Total(p) == Total(Plus(p[..half], p[half..2 * half])) + Total(p[2 * half..])
  {
    hide Total, Plus;
    var a, b, c := p[..half], p[half..2 * half], p[2 * half..];
    assert p == (a + b) + c;
    TotalAppend(a + b, c);
    TotalAppend(a, b);
    TotalPlus(a, b, half);
    assert Plus(a, b)[..half] == Plus(a, b) && a[..half] == a && b[..half] == b;
  }

  lemma {:induction false} SamePairs(p: seq<real>, q: seq<real>, half: nat)
    requires |p| == |q| && 2 * half <= |p|
    requires forall i :: 0 <= i < half ==> p[i] + p[i + half] == q[i] + q[i + half]
    requires forall i :: 2 * half <= i < |p| ==> p[i] == q[i]
    ensures Total(p) == Total(q)
  {
    hide Total;
    TotalInPairs(p, half);
    TotalInPairs(q, half);
    assert Plus(p[..half], p[half..2 * half]) == Plus(q[..half], q[half..2 * half]);
    assert p[2 * half..] == q[2 * half..];
  }

  /** The products of two rotated vectors. */
  function RotatedProducts(rd: Reading, x: seq<Scalar>, y: seq<Scalar>, rotary: nat, p: nat, q: nat, ropeBase: Scalar)
    : (ps: seq<real>)
    requires rotary <= |x| == |y|
    ensures |ps| == |x|
  {
    Times(Vec(rd, RopeRow(x, rotary, p, ropeBase)), Vec(rd, RopeRow(y, rotary, q, ropeBase)))
  }

  lemma {:induction false} PairProducts(rd: Reading, x: seq<Scalar>, y: seq<Scalar>, rotary: nat, p: nat, q: nat,
                                        ropeBase: Scalar, i: nat)
    requires AngleLaws(rd) && rotary <= |x| == |y| && i < rotary / 2
    ensures
      var j := i + rotary / 2;
      var turn := Angle(rd, i, rotary, p, ropeBase) - Angle(rd, i, rotary, q, ropeBase);
      var ps := RotatedProducts(rd, x, y, rotary, p, q, ropeBase);
      ps[i] + ps[j] == PairAt(rd, Eval(rd, x[i]), Eval(rd, x[j]), Eval(rd, y[i]), Eval(rd, y[j]), turn)
  {
    hide Eval, RopeRow, Angle, AngleLaws, TurnFirst, TurnSecond, PairAt;
    var j := i + rotary / 2;
    var x0, x1, y0, y1 := Eval(rd, x[i]), Eval(rd, x[j]), Eval(rd, y[i]), Eval(rd, y[j]);
    var a, b := Angle(rd, i, rotary, p, ropeBase), Angle(rd, i, rotary, q, ropeBase);
    TurnedPair(rd, x, rotary, p, ropeBase, i);
    TurnedPair(rd, y, rotary, q, ropeBase, i);
    TurnedProducts(rd, x0, x1, y0, y1, a, b);
  }

  function TurnFirst(rd: Reading, x0: real, x1: real, a: real): real { x0 * rd.cos(a) - x1 * rd.sin(a) }

  function TurnSecond(rd: Reading, x0: real, x1: real, a: real): real { x0 * rd.sin(a) + x1 * rd.cos(a) }

  lemma TurnedPair(rd: Reading, x: seq<Scalar>, rotary: nat, position: nat, ropeBase: Scalar, i: nat)
    requires rotary <= |x| && i < rotary / 2
    ensures
      var j, a := i + rotary / 2, Angle(rd, i, rotary, position, ropeBase);
      var y := RopeRow(x, rotary, position, ropeBase);
      && Eval(rd, y[i]) == TurnFirst(rd, Eval(rd, x[i]), Eval(rd, x[j]), a)
      && Eval(rd, y[j]) == TurnSecond(rd, Eval(rd, x[i]), Eval(rd, x[j]), a)
  {
    hide Eval, RopeRow, Angle;
    RotatedPair(rd, x, rotary, position, ropeBase, i);
  }

  /** What a pair of each vector contributes, with the first turned ahead of the second. */
  function PairAt(rd: Reading, x0: real, x1: real, y0: real, y1: real, turn: real): real {
    (x0 * y0 + x1 * y1) * rd.cos(turn) + (x0 * y1 - x1 * y0) * rd.sin(turn)
  }

  lemma {:induction false} AngleDifference(rd: Reading, i: nat, rotary: nat, p: nat, q: nat, s: nat, ropeBase: Scalar)
    ensures Angle(rd, i, rotary, p + s, ropeBase) - Angle(rd, i, rotary, q + s, ropeBase)
            == Angle(rd, i, rotary, p, ropeBase) - Angle(rd, i, rotary, q, ropeBase)
  {
    var y := rd.pow(Eval(rd, ropeBase), Ratio((2 * i) as real, rotary as real));
    RatioDifference((p + s) as real, (q + s) as real, y);
    RatioDifference(p as real, q as real, y);
  }

  lemma {:induction false} RatioDifference(x: real, z: real, y: real)
    ensures Ratio(x, y) - Ratio(z, y) == Ratio(x - z, y)
  {
  }

  /** The inner product of a rotated query and a rotated key sees their positions only through
      their difference: moving both by the same number of tokens changes nothing. */
  lemma {:induction false} RotationIsRelative(rd: Reading, x: seq<Scalar>, y: seq<Scalar>, rotary: nat,
                                              p: nat, q: nat, s: nat, ropeBase: Scalar)
    requires AngleLaws(rd) && rotary <= |x| == |y|
    ensures Dot(Vec(rd, RopeRow(x, rotary, p + s, ropeBase)), Vec(rd, RopeRow(y, rotary, q + s, ropeBase)))
            == Dot(Vec(rd, RopeRow(x, rotary, p, ropeBase)), Vec(rd, RopeRow(y, rotary, q, ropeBase)))
  {
    hide Eval, RopeRow, Angle, AngleLaws, Total;
    var half := rotary / 2;
    var moved := RotatedProducts(rd, x, y, rotary, p + s, q + s, ropeBase);
    var still := RotatedProducts(rd, x, y, rotary, p, q, ropeBase);
    forall i | 0 <= i < half
      ensures moved[i] + moved[i + half] == still[i] + still[i + half]
    {
      PairProducts(rd, x, y, rotary, p + s, q + s, ropeBase, i);
      PairProducts(rd, x, y, rotary, p, q, ropeBase, i);
      AngleDifference(rd, i, rotary, p, q, s, ropeBase);
    }
    forall i | 2 * half <= i < |x|
      ensures moved[i] == still[i]
    {
      RestStays(rd, x, y, rotary, p + s, q + s, ropeBase, i);
      RestStays(rd, x, y, rotary, p, q, ropeBase, i);
    }
    SamePairs(moved, still, half);
  }

  lemma {:induction false} RestStays(rd: Reading, x: seq<Scalar>, y: seq<Scalar>, rotary: nat, p: nat, q: nat,
                                     ropeBase: Scalar, i: nat)
    requires rotary <= |x| == |y| && 2 * (rotary / 2) <= i < |x|
    ensures RotatedProducts(rd, x, y, rotary, p, q, ropeBase)[i] == Eval(rd, x[i]) * Eval(rd, y[i])
  {
    hide Eval, RopeRow;
    RotatedPair(rd, x, rotary, p, ropeBase, i);
    RotatedPair(rd, y, rotary, q, ropeBase, i);
  }

  /** A rotation keeps the length of every pair it turns, and so of the whole head. */
  lemma {:induction false} RotationKeepsLength(rd: Reading, x: seq<Scalar>, rotary: nat, position: nat, ropeBase: Scalar)
    requires CircleLaw(rd) && rotary <= |x|
    ensures
      var y := RopeRow(x, rotary, position, ropeBase);
      && (forall i :: 0 <= i < rotary / 2 ==>
            Square(Eval(rd, y[i])) + Square(Eval(rd, y[i + rotary / 2]))
            == Square(Eval(rd, x[i])) + Square(Eval(rd, x[i + rotary / 2])))
      && Dot(Vec(rd, y), Vec(rd, y)) == Dot(Vec(rd, x), Vec(rd, x))
  {
    hide Eval, RopeRow, Angle, Total, CircleLaw;
    var half, y := rotary / 2, RopeRow(x, rotary, position, ropeBase);
    var turned, still := Times(Vec(rd, y), Vec(rd, y)), Times(Vec(rd, x), Vec(rd, x));
    forall i | 0 <= i < half
      ensures Square(Eval(rd, y[i])) + Square(Eval(rd, y[i + half]))
              == Square(Eval(rd, x[i])) + Square(Eval(rd, x[i + half]))
    {
      RotatedPair(rd, x, rotary, position, ropeBase, i);
      PairLength(rd, Eval(rd, x[i]), Eval(rd, x[i + half]), Angle(rd, i, rotary, position, ropeBase));
    }
    forall i | 2 * half <= i < |x|
      ensures turned[i] == still[i]
    {
      RotatedPair(rd, x, rotary, position, ropeBase, i);
    }
    SamePairs(turned, still, half);
  }

  function Square(x: real): real { x * x }

  lemma {:induction false} PairLength(rd: Reading, x0: real, x1: real, a: real)
    requires CircleLaw(rd)
    ensures Square(x0 * rd.cos(a) - x1 * rd.sin(a)) + Square(x0 * rd.sin(a) + x1 * rd.cos(a)) == Square(x0) + Square(x1)
  {
    var c, s := rd.cos(a), rd.sin(a);
    assert Square(x0 * c - x1 * s) + Square(x0 * s + x1 * c) == (x0 * x0 + x1 * x1) * (c * c + s * s);
  }
}
