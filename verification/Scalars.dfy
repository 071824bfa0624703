/** The scalars of the CPU reference, as the record of the operations that produced them.
    Two computations give the same `Scalar` exactly when they perform the same operations on
    the same inputs in the same order, so an equality proved here holds bit for bit whatever
    rounding, overflow or NaN does. Single and double precision share one type; the operation
    says which precision it works in, and `Narrow` is the cast from double to float. */
module Scalars {
  datatype UnaryOp =
    | FNeg | FSqrt | FExp | FLog1p
    | DSqrt | DExp | DCos | DSin
    | Narrow

  datatype BinaryOp =
    | FAdd | FSub | FMul | FDiv
    | DAdd | DSub | DMul | DDiv | DPow

  datatype Scalar =
    | Input(id: int)                  // a stored float: weight, embedding or configuration value
    | Zero | One | Twenty | NegInfinity | L2Epsilon
    | OfNat(n: nat)
    | Unary(uop: UnaryOp, arg: Scalar)
    | Binary(bop: BinaryOp, left: Scalar, right: Scalar)
    | IfLess(low: Scalar, high: Scalar, yes: Scalar, no: Scalar)  // low < high ? yes : no

  function Add(x: Scalar, y: Scalar): Scalar { Binary(FAdd, x, y) }

  function Sub(x: Scalar, y: Scalar): Scalar { Binary(FSub, x, y) }

  function Mul(x: Scalar, y: Scalar): Scalar { Binary(FMul, x, y) }

  function Div(x: Scalar, y: Scalar): Scalar { Binary(FDiv, x, y) }

  function AddD(x: Scalar, y: Scalar): Scalar { Binary(DAdd, x, y) }

  function SubD(x: Scalar, y: Scalar): Scalar { Binary(DSub, x, y) }

  function MulD(x: Scalar, y: Scalar): Scalar { Binary(DMul, x, y) }

  function DivD(x: Scalar, y: Scalar): Scalar { Binary(DDiv, x, y) }

  function Sqrt(x: Scalar): Scalar { Unary(FSqrt, x) }

  function Exp(x: Scalar): Scalar { Unary(FExp, x) }

  function ToFloat(x: Scalar): Scalar { Unary(Narrow, x) }

  function Sigmoid(x: Scalar): Scalar {
    Div(One, Add(One, Exp(Unary(FNeg, x))))
  }

  function Silu(x: Scalar): Scalar {
    Div(x, Add(One, Exp(Unary(FNeg, x))))
  }

  function Softplus(x: Scalar): Scalar {
    IfLess(Twenty, x,
           x,
           IfLess(x, Unary(FNeg, Twenty), Exp(x), Unary(FLog1p, Exp(x))))
  }

  /** `std::max(x, y)`, which keeps `x` unless `x < y`. */
  function Max(x: Scalar, y: Scalar): Scalar {
    IfLess(x, y, y, x)
  }

  /** Double-precision accumulation of the first `n` products, left to right. */
  function DotD(a: seq<Scalar>, b: seq<Scalar>, n: nat): Scalar
    requires n <= |a| && n <= |b|
  {
    if n == 0 then Zero else AddD(DotD(a, b, n - 1), MulD(a[n - 1], b[n - 1]))
  }

  /** Single-precision accumulation of the first `n` products onto `init`, left to right. */
  function DotF(init: Scalar, a: seq<Scalar>, b: seq<Scalar>, n: nat): Scalar
    requires n <= |a| && n <= |b|
  {
    if n == 0 then init else Add(DotF(init, a, b, n - 1), Mul(a[n - 1], b[n - 1]))
  }

  /** Column `c` of a matrix all of whose rows are `w` long. */
  function Column(m: seq<seq<Scalar>>, w: nat, c: nat): (col: seq<Scalar>)
    requires forall r :: 0 <= r < |m| ==> |m[r]| == w
    requires c < w
    ensures |col| == |m|
  {
    seq(|m|, r requires 0 <= r < |m| => m[r][c])
  }
}
