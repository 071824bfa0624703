/** Scalars read as real numbers: rounding is dropped, and the functions of the C library are known
    only by the laws stated here. */
module Readings {
  import opened Scalars

  datatype Reading = Reading(
    stored: int -> real, lowest: real, sqrt: real -> real, exp: real -> real, log1p: real -> real,
    cos: real -> real, sin: real -> real, pow: (real, real) -> real)

  ghost predicate Lawful(rd: Reading) {
    && (forall x :: x >= 0.0 ==> rd.sqrt(x) >= 0.0 && rd.sqrt(x) * rd.sqrt(x) == x)
    && (forall x :: rd.exp(x) > 0.0)
  }

  ghost predicate ExpAdds(rd: Reading) {
    forall x, y :: rd.exp(x + y) == rd.exp(x) * rd.exp(y)
  }

  /** Below one on negatives; and the logarithm of one plus a positive number is positive. */
  ghost predicate GateLaws(rd: Reading) {
    && (forall x :: x < 0.0 ==> rd.exp(x) < 1.0)
    && (forall x :: x > 0.0 ==> rd.log1p(x) > 0.0)
  }

  ghost predicate CircleLaw(rd: Reading) {
    forall x :: rd.cos(x) * rd.cos(x) + rd.sin(x) * rd.sin(x) == 1.0
  }

  /** The cosine and sine of a difference of angles. */
  ghost predicate AngleLaws(rd: Reading) {
    && (forall x, y :: rd.cos(x - y) == rd.cos(x) * rd.cos(y) + rd.sin(x) * rd.sin(y))
    && (forall x, y :: rd.sin(x - y) == rd.sin(x) * rd.cos(y) - rd.cos(x) * rd.sin(y))
  }

  /** A quotient, read as zero where the divisor is zero. */
  function Ratio(x: real, y: real): real {
    if y == 0.0 then 0.0 else x / y
  }

  function Eval(rd: Reading, s: Scalar): real {
    match s
    case Input(id) => rd.stored(id)
    case Zero => 0.0
    case One => 1.0
    case Twenty => 20.0
    case NegInfinity => rd.lowest
    case L2Epsilon => 0.000001
    case OfNat(n) => n as real
    case Unary(op, x) => EvalUnary(rd, op, Eval(rd, x))
    case Binary(op, x, y) => EvalBinary(rd, op, Eval(rd, x), Eval(rd, y))
    case IfLess(low, high, yes, no) =>
      if Eval(rd, low) < Eval(rd, high) then Eval(rd, yes) else Eval(rd, no)
  }

  function EvalUnary(rd: Reading, op: UnaryOp, x: real): real {
    match op
    case FNeg => -x
    case FSqrt => rd.sqrt(x)
    case DSqrt => rd.sqrt(x)
    case FExp => rd.exp(x)
    case DExp => rd.exp(x)
    case FLog1p => rd.log1p(x)
    case DCos => rd.cos(x)
    case DSin => rd.sin(x)
    case Narrow => x
  }

  function EvalBinary(rd: Reading, op: BinaryOp, x: real, y: real): real {
    match op
    case FAdd => x + y
    case DAdd => x + y
    case FSub => x - y
    case DSub => x - y
    case FMul => x * y
    case DMul => x * y
    case FDiv => Ratio(x, y)
    case DDiv => Ratio(x, y)
    case DPow => rd.pow(x, y)
  }

  lemma {:induction false} EvalAdd(rd: Reading, x: Scalar, y: Scalar)
    ensures Eval(rd, Add(x, y)) == Eval(rd, x) + Eval(rd, y)
  {
  }

  lemma {:induction false} EvalSub(rd: Reading, x: Scalar, y: Scalar)
    ensures Eval(rd, Sub(x, y)) == Eval(rd, x) - Eval(rd, y)
  {
  }

  lemma {:induction false} EvalMul(rd: Reading, x: Scalar, y: Scalar)
    ensures Eval(rd, Mul(x, y)) == Eval(rd, x) * Eval(rd, y)
  {
  }

  lemma {:induction false} EvalProduct(rd: Reading, x: Scalar, y: Scalar)
    ensures Eval(rd, Mul(x, y)) == Product(Eval(rd, x), Eval(rd, y))
  {
  }

  lemma {:induction false} EvalDiv(rd: Reading, x: Scalar, y: Scalar)
    ensures Eval(rd, Div(x, y)) == Ratio(Eval(rd, x), Eval(rd, y))
  {
  }

  lemma {:induction false} EvalSqrt(rd: Reading, x: Scalar)
    ensures Eval(rd, Sqrt(x)) == rd.sqrt(Eval(rd, x))
  {
  }

  lemma {:induction false} EvalExp(rd: Reading, x: Scalar)
    ensures Eval(rd, Exp(x)) == rd.exp(Eval(rd, x))
  {
  }

  // ----- vectors and sums -----

  function Vec(rd: Reading, xs: seq<Scalar>): (v: seq<real>)
    ensures |v| == |xs| && forall i :: 0 <= i < |xs| ==> v[i] == Eval(rd, xs[i])
  {
    seq(|xs|, i requires 0 <= i < |xs| => Eval(rd, xs[i]))
  }

  function Vecs(rd: Reading, m: seq<seq<Scalar>>): (vs: seq<seq<real>>)
    ensures |vs| == |m| && forall r :: 0 <= r < |m| ==> vs[r] == Vec(rd, m[r])
  {
    seq(|m|, r requires 0 <= r < |m| => Vec(rd, m[r]))
  }

  function Product(x: real, y: real): real { x * y }

  function Total(v: seq<real>): real {
    if |v| == 0 then 0.0 else Total(v[..|v| - 1]) + v[|v| - 1]
  }

  /** The products of two vectors, place by place. */
  function Times(a: seq<real>, b: seq<real>): (p: seq<real>)
    requires |a| == |b|
    ensures |p| == |a|
  {
    seq(|a|, i requires 0 <= i < |a| => Product(a[i], b[i]))
  }

  function Dot(a: seq<real>, b: seq<real>): real
    requires |a| == |b|
  {
    Total(Times(a, b))
  }

  function Scaled(v: seq<real>, f: real): (w: seq<real>)
    ensures |w| == |v|
  {
    seq(|v|, i requires 0 <= i < |v| => Product(v[i], f))
  }

  lemma {:induction false} TotalPrefix(v: seq<real>, n: nat)
    requires n < |v|
    ensures Total(v[..n + 1]) == Total(v[..n]) + v[n]
  {
    assert v[..n + 1][..n] == v[..n];
  }

  lemma {:induction false} TotalScaled(v: seq<real>, f: real)
    ensures Total(Scaled(v, f)) == Total(v) * f
  {
    var n := |v|;
    if n > 0 {
      TotalScaled(v[..n - 1], f);
      var whole, front := Scaled(v, f), Scaled(v[..n - 1], f);
      forall i | 0 <= i < n - 1
        ensures whole[..n - 1][i] == front[i]
      {
        assert v[..n - 1][i] == v[i];
      }
      assert whole[..n - 1] == front;
      Distributes(Total(v[..n - 1]), v[n - 1], f);
    }
  }

  lemma Distributes(a: real, b: real, f: real)
    ensures (a + b) * f == a * f + b * f
  {
  }

  lemma {:induction false} EvalDotZero(rd: Reading, a: seq<Scalar>, b: seq<Scalar>)
    ensures Eval(rd, DotD(a, b, 0)) == 0.0
  {
  }

  lemma {:induction false} EvalDot(rd: Reading, a: seq<Scalar>, b: seq<Scalar>, n: nat)
    requires 0 < n <= |a| && n <= |b|
    ensures Eval(rd, DotD(a, b, n)) == Eval(rd, DotD(a, b, n - 1)) + Product(Eval(rd, a[n - 1]), Eval(rd, b[n - 1]))
  {
    var product := MulD(a[n - 1], b[n - 1]);
    assert DotD(a, b, n) == AddD(DotD(a, b, n - 1), product);
    assert Eval(rd, product) == Eval(rd, a[n - 1]) * Eval(rd, b[n - 1]);
  }

  /** The accumulation loop in double precision is the inner product. */
  lemma {:induction false} EvalDotTotal(rd: Reading, a: seq<Scalar>, b: seq<Scalar>, n: nat)
    requires n <= |a| == |b|
    ensures Eval(rd, DotD(a, b, n)) == Total(Times(Vec(rd, a), Vec(rd, b))[..n])
  {
    hide Eval, DotD, Total, Product;
    if n == 0 {
      EvalDotZero(rd, a, b);
      TotalEmpty();
      assert Times(Vec(rd, a), Vec(rd, b))[..0] == [];
    } else {
      EvalDotTotal(rd, a, b, n - 1);
      EvalDot(rd, a, b, n);
      TotalPrefix(Times(Vec(rd, a), Vec(rd, b)), n - 1);
    }
  }

  lemma TotalEmpty()
    ensures Total([]) == 0.0
  {
  }

  lemma {:induction false} EvalInner(rd: Reading, a: seq<Scalar>, b: seq<Scalar>)
    requires |a| == |b|
    ensures Eval(rd, DotD(a, b, |a|)) == Dot(Vec(rd, a), Vec(rd, b))
  {
    hide Eval, DotD, Product;
    EvalDotTotal(rd, a, b, |a|);
    var p := Times(Vec(rd, a), Vec(rd, b));
    assert p[..|a|] == p;
  }

  lemma {:induction false} EvalDotF(rd: Reading, init: Scalar, a: seq<Scalar>, b: seq<Scalar>, n: nat)
    requires 0 < n <= |a| && n <= |b|
    ensures Eval(rd, DotF(init, a, b, n)) == Eval(rd, DotF(init, a, b, n - 1)) + Product(Eval(rd, a[n - 1]), Eval(rd, b[n - 1]))
  {
    hide Eval, Product;
    var product := Mul(a[n - 1], b[n - 1]);
    assert DotF(init, a, b, n) == Add(DotF(init, a, b, n - 1), product);
    EvalAdd(rd, DotF(init, a, b, n - 1), product);
    EvalProduct(rd, a[n - 1], b[n - 1]);
  }

  /** And so is the one in single precision, on top of what it starts from. */
  lemma {:induction false} EvalDotFTotal(rd: Reading, init: Scalar, a: seq<Scalar>, b: seq<Scalar>, n: nat)
    requires n <= |a| == |b|
    ensures Eval(rd, DotF(init, a, b, n)) == Eval(rd, init) + Total(Times(Vec(rd, a), Vec(rd, b))[..n])
  {
    hide Eval, Total, Product;
    if n == 0 {
      TotalEmpty();
      assert Times(Vec(rd, a), Vec(rd, b))[..0] == [];
    } else {
      EvalDotFTotal(rd, init, a, b, n - 1);
      EvalDotF(rd, init, a, b, n);
      TotalPrefix(Times(Vec(rd, a), Vec(rd, b)), n - 1);
    }
  }
}
