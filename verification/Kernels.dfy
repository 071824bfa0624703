/** The row-local loops of the CPU reference: matrix product, RMSNorm, rotary embedding,
    L2 normalisation, residual addition and the output-weight transpose. */
module Kernels {
  import opened Prelude
  import opened Matrix
  import opened Scalars

  lemma {:induction false} SubSlice<T>(s: seq<T>, at: nat, n: nat, i: nat, k: nat)
    requires at + n <= |s| && i + k <= n
    ensures s[at..at + n][i..i + k] == s[at + i..at + i + k]
  {
    var left, right := s[at..at + n][i..i + k], s[at + i..at + i + k];
    assert forall j :: 0 <= j < k ==> left[j] == s[at..at + n][i + j];
    assert forall j :: 0 <= j < k ==> left[j] == right[j];
  }

  lemma {:induction false} SubRow<T>(s: seq<T>, at: nat, n: nat, w: nat, r: nat)
    requires at + Offset(n, w) <= |s| && r < n
    ensures at + Offset(r, w) + w <= at + Offset(n, w)
    ensures s[at + Offset(r, w)..at + Offset(r, w) + w] == Rows(s[at..at + Offset(n, w)], n, w)[r]
  {
    RowInside(n, w, r);
    SubSlice(s, at, Offset(n, w), Offset(r, w), w);
  }

  lemma {:induction false} ByCells<T>(now: seq<T>, was: seq<T>, at: nat, mid: seq<T>)
    requires |now| == |was| && at + |mid| <= |was|
    requires forall k :: 0 <= k < |now| ==> now[k] == if at <= k < at + |mid| then mid[k - at] else was[k]
    ensures now == Splice(was, at, mid)
  {
  }

  lemma {:induction false} JoinSplice<T>(now: seq<T>, was: seq<T>, at: nat, mid: seq<T>)
    requires |now| == |was| && at + |mid| <= |was|
    requires now[..at] == was[..at] && now[at..at + |mid|] == mid && now[at + |mid|..] == was[at + |mid|..]
    ensures now == Splice(was, at, mid)
  {
    assert now == now[..at] + now[at..at + |mid|] + now[at + |mid|..];
  }

  // ----- matrix product -----

  function LinearRow(x: seq<Scalar>, weight: seq<seq<Scalar>>): (y: seq<Scalar>)
    requires forall o :: 0 <= o < |weight| ==> |weight[o]| == |x|
    ensures |y| == |weight|
  {
    seq(|weight|, o requires 0 <= o < |weight| => ToFloat(DotD(x, weight[o], |x|)))
  }

  function LinearRows(xs: seq<seq<Scalar>>, w: nat, weight: seq<seq<Scalar>>): (ys: seq<seq<Scalar>>)
    requires forall o :: 0 <= o < |weight| ==> |weight[o]| == w
    requires forall r :: 0 <= r < |xs| ==> |xs[r]| == w
    ensures |ys| == |xs|
    ensures forall r :: 0 <= r < |ys| ==> |ys[r]| == |weight|
  {
    seq(|xs|, r requires 0 <= r < |xs| => LinearRow(xs[r], weight))
  }

  /** The accumulation loop, over a stretch of a flat weight buffer. */
  method DotLoop(x: seq<Scalar>, raw: seq<Scalar>, at: nat) returns (sum: Scalar)
    requires at + |x| <= |raw|
    ensures sum == DotD(x, raw[at..at + |x|], |x|)
  {
    sum := Zero;
    for i := 0 to |x|
      invariant sum == DotD(x, raw[at..at + |x|], i)
    {
      sum := AddD(sum, MulD(x[i], raw[at + i]));
    }
  }

  method LinearCell(x: seq<Scalar>, raw: seq<Scalar>, outputWidth: nat, o: nat) returns (y: Scalar)
    requires |raw| == Offset(outputWidth, |x|) && o < outputWidth
    ensures y == ToFloat(DotD(x, Row(raw, outputWidth, |x|, o), |x|))
  {
    RowInside(outputWidth, |x|, o);
    var sum := DotLoop(x, raw, Offset(o, |x|));
    y := ToFloat(sum);
  }

  method FillLinearRow(x: seq<Scalar>, raw: seq<Scalar>, outputWidth: nat, output: array<Scalar>, base: nat)
    requires |raw| == Offset(outputWidth, |x|)
    requires base + outputWidth <= output.Length
    modifies output
    ensures output[..] == Splice(old(output[..]), base, LinearRow(x, Rows(raw, outputWidth, |x|)))
  {
    ghost var target := LinearRow(x, Rows(raw, outputWidth, |x|));
    ghost var was := output[..];
    for o := 0 to outputWidth
      invariant forall k :: 0 <= k < output.Length ==>
        output[k] == if base <= k < base + o then target[k - base] else was[k]
    {
      output[base + o] := LinearCell(x, raw, outputWidth, o);
    }
  }

  method Linear(input: seq<Scalar>, rows: nat, inputWidth: nat, raw: seq<Scalar>, outputWidth: nat)
    returns (r: Result<seq<Scalar>>)
    ensures r.Ok? <==> |input| == Offset(rows, inputWidth) && |raw| == Offset(outputWidth, inputWidth)
    ensures r.Ok? ==> |r.value| == Offset(rows, outputWidth)
    ensures r.Ok? ==>
      Rows(r.value, rows, outputWidth)
      == LinearRows(Rows(input, rows, inputWidth), inputWidth, Rows(raw, outputWidth, inputWidth))
  {
    if |input| != Offset(rows, inputWidth) || |raw| != Offset(outputWidth, inputWidth) {
      return Err;
    }
    hide LinearRow, Rows, Offset, Splice;
    var output := new Scalar[Offset(rows, outputWidth)](_ => Zero);
    ghost var target := LinearRows(Rows(input, rows, inputWidth), inputWidth, Rows(raw, outputWidth, inputWidth));
    for row := 0 to rows
      invariant forall k :: 0 <= k < row ==> Rows(output[..], rows, outputWidth)[k] == target[k]
    {
      RowInside(rows, inputWidth, row);
      RowInside(rows, outputWidth, row);
      ghost var was := output[..];
      FillLinearRow(input[Offset(row, inputWidth)..Offset(row, inputWidth) + inputWidth], raw, outputWidth, output, Offset(row, outputWidth));
      SetRow(was, rows, outputWidth, row, target[row]);
    }
    r := Ok(output[..]);
  }

  // ----- RMSNorm -----

  function RmsScale(x: seq<Scalar>, epsilon: Scalar): Scalar {
    Div(One,
           Sqrt(Add(ToFloat(DivD(DotD(x, x, |x|), OfNat(|x|))), epsilon)))
  }

  function NormRow(x: seq<Scalar>, weight: seq<Scalar>, scale: Scalar): (y: seq<Scalar>)
    requires |weight| == |x|
    ensures |y| == |x|
  {
    seq(|x|, c requires 0 <= c < |x| => Mul(Mul(x[c], scale), Add(Zero, weight[c])))
  }

  function RmsRow(x: seq<Scalar>, weight: seq<Scalar>, epsilon: Scalar): (y: seq<Scalar>)
    requires |weight| == |x|
    ensures |y| == |x|
  {
    NormRow(x, weight, RmsScale(x, epsilon))
  }

  function RmsRows(xs: seq<seq<Scalar>>, w: nat, weight: seq<Scalar>, epsilon: Scalar): (ys: seq<seq<Scalar>>)
    requires |weight| == w
    requires forall r :: 0 <= r < |xs| ==> |xs[r]| == w
    ensures |ys| == |xs|
    ensures forall r :: 0 <= r < |ys| ==> |ys[r]| == w
  {
    seq(|xs|, r requires 0 <= r < |xs| => RmsRow(xs[r], weight, epsilon))
  }

  /** Sum of squares of a stretch of a buffer. */
  method SquareSum(x: array<Scalar>, at: nat, n: nat) returns (sum: Scalar)
    requires at + n <= x.Length
    ensures sum == DotD(x[at..at + n], x[at..at + n], n)
  {
    sum := Zero;
    ghost var row := x[at..at + n];
    for i := 0 to n
      invariant sum == DotD(row, row, i)
    {
      var value := x[at + i];
      sum := AddD(sum, MulD(value, value));
    }
  }

  method ApplyNorm(input: array<Scalar>, inAt: nat, weight: seq<Scalar>, output: array<Scalar>, outAt: nat, scale: Scalar)
    requires inAt + |weight| <= input.Length && outAt + |weight| <= output.Length
    requires input != output || inAt == outAt
    modifies output
    ensures output[..] ==
            Splice(old(output[..]), outAt, NormRow(old(input[inAt..inAt + |weight|]), weight, scale))
  {
    ghost var target := NormRow(input[inAt..inAt + |weight|], weight, scale);
    ghost var was := output[..];
    for c := 0 to |weight|
      invariant forall k :: 0 <= k < output.Length ==>
        output[k] == if outAt <= k < outAt + c then target[k - outAt] else was[k]
    {
      output[outAt + c] := Mul(Mul(input[inAt + c], scale), Add(Zero, weight[c]));
    }
    ByCells(output[..], was, outAt, target);
  }

  /** One row. Input and output may be the very same stretch, as they are for query and key heads. */
  method NormSpan(input: array<Scalar>, inAt: nat, weight: seq<Scalar>, output: array<Scalar>, outAt: nat, epsilon: Scalar)
    requires inAt + |weight| <= input.Length && outAt + |weight| <= output.Length
    requires input != output || inAt == outAt
    modifies output
    ensures output[..] ==
            Splice(old(output[..]), outAt, RmsRow(old(input[inAt..inAt + |weight|]), weight, epsilon))
  {
    var n := |weight|;
    var squareSum := SquareSum(input, inAt, n);
    var scale := Div(One, Sqrt(Add(ToFloat(DivD(squareSum, OfNat(n))), epsilon)));
    ApplyNorm(input, inAt, weight, output, outAt, scale);
  }

  method NormMatrixRow(input: array<Scalar>, at: nat, cols: nat, weight: seq<Scalar>, output: array<Scalar>,
                       rows: nat, row: nat, epsilon: Scalar)
    requires |weight| == cols && input != output && row < rows
    requires at + Offset(rows, cols) <= input.Length && output.Length == Offset(rows, cols)
    modifies output
    ensures Rows(output[..], rows, cols)
            == old(Rows(output[..], rows, cols))
               [row := RmsRow(Rows(input[at..at + Offset(rows, cols)], rows, cols)[row], weight, epsilon)]
  {
    hide Rows, Splice, RmsRow, Offset;
    ghost var x := Rows(input[at..at + Offset(rows, cols)], rows, cols)[row];
    RowInside(rows, cols, row);
    SubRow(input[..], at, rows, cols, row);
    SetRow(output[..], rows, cols, row, RmsRow(x, weight, epsilon));
    NormSpan(input, at + Offset(row, cols), weight, output, Offset(row, cols), epsilon);
  }

  method NormRows(input: array<Scalar>, at: nat, cols: nat, weight: seq<Scalar>, output: array<Scalar>,
                     rows: nat, epsilon: Scalar)
    requires |weight| == cols && input != output
    requires at + Offset(rows, cols) <= input.Length && output.Length == Offset(rows, cols)
    modifies output
    ensures Rows(output[..], rows, cols)
            == RmsRows(Rows(input[at..at + Offset(rows, cols)], rows, cols), cols, weight, epsilon)
  {
    ghost var source := Rows(input[at..at + Offset(rows, cols)], rows, cols);
    for row := 0 to rows
      invariant forall k :: 0 <= k < row ==> Rows(output[..], rows, cols)[k] == RmsRow(source[k], weight, epsilon)
    {
      NormMatrixRow(input, at, cols, weight, output, rows, row, epsilon);
    }
  }

  method RmsNorm(input: array<Scalar>, at: nat, length: nat, weight: seq<Scalar>,
                    output: array<Scalar>, rows: nat, cols: nat, epsilon: Scalar)
    returns (ok: bool)
    requires at + length <= input.Length && input != output
    modifies output
    ensures ok <==> rows > 0 && cols > 0 && length == Offset(rows, cols)
                    && |weight| == cols && output.Length == Offset(rows, cols)
    ensures ok ==> Rows(output[..], rows, cols)
                   == RmsRows(Rows(input[at..at + length], rows, cols), cols, weight, epsilon)
    ensures !ok ==> output[..] == old(output[..])
  {
    if rows == 0 || cols == 0 || length != Offset(rows, cols)
       || |weight| != cols || output.Length != Offset(rows, cols) {
      return false;
    }
    NormRows(input, at, cols, weight, output, rows, epsilon);
    ok := true;
  }

  // ----- L2 normalisation -----

  function L2Row(x: seq<Scalar>, epsilon: Scalar): (y: seq<Scalar>)
    ensures |y| == |x|
  {
    var scale := Div(One, Sqrt(Add(ToFloat(DotD(x, x, |x|)), epsilon)));
    ScaleRow(x, scale)
  }

  function ScaleRow(x: seq<Scalar>, factor: Scalar): (y: seq<Scalar>)
    ensures |y| == |x|
  {
    seq(|x|, i requires 0 <= i < |x| => Mul(x[i], factor))
  }

  method ScaleSpan(values: array<Scalar>, at: nat, n: nat, factor: Scalar)
    requires at + n <= values.Length
    modifies values
    ensures values[..] == Splice(old(values[..]), at, ScaleRow(old(values[at..at + n]), factor))
  {
    ghost var was := values[..];
    ghost var target := ScaleRow(values[at..at + n], factor);
    for i := 0 to n
      invariant forall k :: 0 <= k < values.Length ==>
        values[k] == if at <= k < at + i then target[k - at] else was[k]
    {
      values[at + i] := Mul(values[at + i], factor);
    }
    ByCells(values[..], was, at, target);
  }

  method L2Normalize(values: array<Scalar>, at: nat, n: nat, epsilon: Scalar)
    requires at + n <= values.Length
    modifies values
    ensures values[..] == Splice(old(values[..]), at, L2Row(old(values[at..at + n]), epsilon))
  {
    var squareSum := SquareSum(values, at, n);
    var scale := Div(One, Sqrt(Add(ToFloat(squareSum), epsilon)));
    ScaleSpan(values, at, n, scale);
  }

  // ----- rotary embedding -----

  function RopeAngle(pair: nat, rotary: nat, position: nat, ropeBase: Scalar): Scalar {
    DivD(OfNat(position), Binary(DPow, ropeBase, DivD(OfNat(2 * pair), OfNat(rotary))))
  }

  function RotateFirst(x0: Scalar, x1: Scalar, theta: Scalar): Scalar {
    Sub(Mul(x0, ToFloat(Unary(DCos, theta))), Mul(x1, ToFloat(Unary(DSin, theta))))
  }

  function RotateSecond(x0: Scalar, x1: Scalar, theta: Scalar): Scalar {
    Add(Mul(x0, ToFloat(Unary(DSin, theta))), Mul(x1, ToFloat(Unary(DCos, theta))))
  }

  function RopeCell(x: seq<Scalar>, rotary: nat, position: nat, ropeBase: Scalar, i: nat): Scalar
    requires rotary <= |x| && i < |x|
  {
    var half := rotary / 2;
    if i < half then
      RotateFirst(x[i], x[i + half], RopeAngle(i, rotary, position, ropeBase))
    else if i < 2 * half then
      RotateSecond(x[i - half], x[i], RopeAngle(i - half, rotary, position, ropeBase))
    else
      x[i]
  }

  function RopeRow(x: seq<Scalar>, rotary: nat, position: nat, ropeBase: Scalar): (y: seq<Scalar>)
    requires rotary <= |x|
    ensures |y| == |x|
  {
    seq(|x|, i requires 0 <= i < |x| => RopeCell(x, rotary, position, ropeBase, i))
  }

  /** The stretch after the first `pairs` of the `rotary / 2` rotations. */
  function RopePartial(x: seq<Scalar>, rotary: nat, position: nat, ropeBase: Scalar, pairs: nat): (y: seq<Scalar>)
    requires rotary <= |x| && pairs <= rotary / 2
    ensures |y| == |x|
  {
    seq(|x|, i requires 0 <= i < |x| =>
      if i < pairs || rotary / 2 <= i < rotary / 2 + pairs
      then RopeCell(x, rotary, position, ropeBase, i) else x[i])
  }

  lemma {:induction false} RopePartialEnds(x: seq<Scalar>, rotary: nat, position: nat, ropeBase: Scalar)
    requires rotary <= |x|
    ensures RopePartial(x, rotary, position, ropeBase, 0) == x
    ensures RopePartial(x, rotary, position, ropeBase, rotary / 2) == RopeRow(x, rotary, position, ropeBase)
  {
  }

  lemma {:induction false} RopePartialStep(x: seq<Scalar>, rotary: nat, position: nat, ropeBase: Scalar, pair: nat)
    requires rotary <= |x| && pair < rotary / 2
    ensures RopePartial(x, rotary, position, ropeBase, pair + 1)
            == RopePartial(x, rotary, position, ropeBase, pair)
                 [pair := RopeCell(x, rotary, position, ropeBase, pair)]
                 [pair + rotary / 2 := RopeCell(x, rotary, position, ropeBase, pair + rotary / 2)]
  {
  }

  lemma {:induction false} SpliceTwo<T>(flat: seq<T>, at: nat, mid: seq<T>, i: nat, x: T, j: nat, y: T)
    requires at + |mid| <= |flat| && i < |mid| && j < |mid|
    ensures Splice(flat, at, mid)[at + i] == mid[i] && Splice(flat, at, mid)[at + j] == mid[j]
    ensures Splice(flat, at, mid)[at + i := x][at + j := y] == Splice(flat, at, mid[i := x][j := y])
  {
  }

  lemma {:induction false} RopeSpliceStep(now: seq<Scalar>, was: seq<Scalar>, at: nat, x: seq<Scalar>,
                          rotary: nat, position: nat, ropeBase: Scalar, pair: nat)
    requires rotary <= |x| && pair < rotary / 2 && at + |x| <= |was|
    requires now == Splice(was, at, RopePartial(x, rotary, position, ropeBase, pair))
    ensures
      var second := pair + rotary / 2;
      var theta := RopeAngle(pair, rotary, position, ropeBase);
      Splice(was, at, RopePartial(x, rotary, position, ropeBase, pair + 1))
      == now[at + pair := RotateFirst(now[at + pair], now[at + second], theta)]
            [at + second := RotateSecond(now[at + pair], now[at + second], theta)]
  {
    var mid := RopePartial(x, rotary, position, ropeBase, pair);
    var second := pair + rotary / 2;
    RopePartialStep(x, rotary, position, ropeBase, pair);
    SpliceTwo(was, at, mid, pair, RopeCell(x, rotary, position, ropeBase, pair),
              second, RopeCell(x, rotary, position, ropeBase, second));
  }

  method RotatePair(vector: array<Scalar>, at: nat, rotary: nat, position: nat, ropeBase: Scalar, pair: nat,
                    ghost was: seq<Scalar>, ghost x: seq<Scalar>)
    requires rotary <= |x| && pair < rotary / 2 && at + |x| <= |was|
    requires vector[..] == Splice(was, at, RopePartial(x, rotary, position, ropeBase, pair))
    modifies vector
    ensures vector[..] == Splice(was, at, RopePartial(x, rotary, position, ropeBase, pair + 1))
  {
    RopeSpliceStep(vector[..], was, at, x, rotary, position, ropeBase, pair);
    var theta := RopeAngle(pair, rotary, position, ropeBase);
    var first, second := at + pair, at + (pair + rotary / 2);
    assert vector.Length == |was|;
    var x0, x1 := vector[first], vector[second];
    vector[first] := RotateFirst(x0, x1, theta);
    vector[second] := RotateSecond(x0, x1, theta);
  }

  method ApplyPartialRope(vector: array<Scalar>, at: nat, n: nat, rotary: nat, position: nat, ropeBase: Scalar)
    requires at + n <= vector.Length && rotary <= n
    modifies vector
    ensures vector[..] ==
            Splice(old(vector[..]), at, RopeRow(old(vector[at..at + n]), rotary, position, ropeBase))
  {
    hide RopeCell, Splice, RopePartial, RopeRow;
    ghost var was := vector[..];
    ghost var x := vector[at..at + n];
    var half := rotary / 2;
    RopePartialEnds(x, rotary, position, ropeBase);
    JoinSplice(was, was, at, x);
    for pair := 0 to half
      invariant vector[..] == Splice(was, at, RopePartial(x, rotary, position, ropeBase, pair))
    {
      RotatePair(vector, at, rotary, position, ropeBase, pair, was, x);
    }
  }

  // ----- residual and transpose -----

  function AddRow(x: seq<Scalar>, y: seq<Scalar>): (z: seq<Scalar>)
    requires |x| == |y|
    ensures |z| == |x|
  {
    seq(|x|, i requires 0 <= i < |x| => Add(x[i], y[i]))
  }

  function AddRows(xs: seq<seq<Scalar>>, ys: seq<seq<Scalar>>, w: nat): (zs: seq<seq<Scalar>>)
    requires |xs| == |ys|
    requires forall r :: 0 <= r < |xs| ==> |xs[r]| == w && |ys[r]| == w
    ensures |zs| == |xs|
    ensures forall r :: 0 <= r < |zs| ==> |zs[r]| == w
  {
    seq(|xs|, r requires 0 <= r < |xs| => AddRow(xs[r], ys[r]))
  }

  method ResidualAdd(hidden: array<Scalar>, residual: seq<Scalar>) returns (ok: bool)
    modifies hidden
    ensures ok <==> hidden.Length == |residual|
    ensures ok ==> hidden[..] == AddRow(old(hidden[..]), residual)
    ensures !ok ==> hidden[..] == old(hidden[..])
  {
    if hidden.Length != |residual| {
      return false;
    }
    ghost var was := hidden[..];
    for i := 0 to hidden.Length
      invariant forall k :: 0 <= k < hidden.Length ==>
        hidden[k] == if k < i then Add(was[k], residual[k]) else was[k]
    {
      hidden[i] := Add(hidden[i], residual[i]);
    }
    ok := true;
  }

  /** Adding flat buffers is adding their matrices, row by row. */
  lemma {:induction false} AddRowRows(x: seq<Scalar>, y: seq<Scalar>, n: nat, w: nat)
    requires |x| == |y| == Offset(n, w)
    ensures Rows(AddRow(x, y), n, w) == AddRows(Rows(x, n, w), Rows(y, n, w), w)
  {
    var z := AddRow(x, y);
    forall r | 0 <= r < n
      ensures Row(z, n, w, r) == AddRow(Row(x, n, w, r), Row(y, n, w, r))
    {
      RowInside(n, w, r);
    }
  }

  /** The rows of the transpose are the columns of the matrix. */
  function TransposeRows(m: seq<seq<Scalar>>, w: nat): (t: seq<seq<Scalar>>)
    requires forall r :: 0 <= r < |m| ==> |m[r]| == w
    ensures |t| == w
    ensures forall i :: 0 <= i < w ==> |t[i]| == |m|
  {
    seq(w, i requires 0 <= i < w => Column(m, w, i))
  }

  method FillTransposeRow(raw: seq<Scalar>, inputWidth: nat, outputWidth: nat, i: nat, transposed: array<Scalar>, at: nat)
    requires |raw| == Offset(outputWidth, inputWidth) && i < inputWidth
    requires at + outputWidth <= transposed.Length
    modifies transposed
    ensures transposed[..] ==
            Splice(old(transposed[..]), at, Column(Rows(raw, outputWidth, inputWidth), inputWidth, i))
  {
    ghost var target := Column(Rows(raw, outputWidth, inputWidth), inputWidth, i);
    ghost var was := transposed[..];
    for o := 0 to outputWidth
      invariant forall k :: 0 <= k < transposed.Length ==>
        transposed[k] == if at <= k < at + o then target[k - at] else was[k]
    {
      RowInside(outputWidth, inputWidth, o);
      assert target[o] == Row(raw, outputWidth, inputWidth, o)[i];
      transposed[at + o] := raw[Offset(o, inputWidth) + i];
    }
    ByCells(transposed[..], was, at, target);
  }

  method TransposeOutputWeight(raw: seq<Scalar>, inputWidth: nat, outputWidth: nat) returns (r: Result<seq<Scalar>>)
    ensures r.Ok? <==> |raw| == Offset(outputWidth, inputWidth)
    ensures r.Ok? ==> |r.value| == Offset(inputWidth, outputWidth)
    ensures r.Ok? ==>
      Rows(r.value, inputWidth, outputWidth) == TransposeRows(Rows(raw, outputWidth, inputWidth), inputWidth)
  {
    if |raw| != Offset(outputWidth, inputWidth) {
      return Err;
    }
    var transposed := new Scalar[Offset(inputWidth, outputWidth)](_ => Zero);
    ghost var target := TransposeRows(Rows(raw, outputWidth, inputWidth), inputWidth);
    for i := 0 to inputWidth
      invariant forall k :: 0 <= k < i ==> Rows(transposed[..], inputWidth, outputWidth)[k] == target[k]
    {
      SetRow(transposed[..], inputWidth, outputWidth, i, target[i]);
      FillTransposeRow(raw, inputWidth, outputWidth, i, transposed, Offset(i, outputWidth));
    }
    r := Ok(transposed[..]);
  }

  // ----- scaled accumulation -----

  /** A row plus a multiple of another. */
  function AddScaled(row: seq<Scalar>, p: Scalar, value: seq<Scalar>): (sum: seq<Scalar>)
    requires |row| == |value|
    ensures |sum| == |row|
  {
    seq(|row|, d requires 0 <= d < |row| => Add(row[d], Mul(p, value[d])))
  }

  method AddWeighted(p: Scalar, value: seq<Scalar>, buffer: array<Scalar>, at: nat)
    requires at + |value| <= buffer.Length
    modifies buffer
    ensures buffer[..] ==
            Splice(old(buffer[..]), at, AddScaled(old(buffer[at..at + |value|]), p, value))
  {
    ghost var was := buffer[..];
    ghost var target := AddScaled(buffer[at..at + |value|], p, value);
    for d := 0 to |value|
      invariant forall k :: 0 <= k < buffer.Length ==>
        buffer[k] == if at <= k < at + d then target[k - at] else was[k]
    {
      buffer[at + d] := Add(buffer[at + d], Mul(p, value[d]));
    }
    ByCells(buffer[..], was, at, target);
  }

  lemma {:induction false} SpliceOver<T>(flat: seq<T>, at: nat, a: seq<T>, b: seq<T>)
    requires at + |a| <= |flat| && |a| == |b|
    ensures Splice(Splice(flat, at, a), at, b) == Splice(flat, at, b)
    ensures Splice(flat, at, a)[at..at + |a|] == a
  {
  }

  // ----- cleared buffers -----

  method Fill(buffer: array<Scalar>, value: Scalar)
    modifies buffer
    ensures forall i :: 0 <= i < buffer.Length ==> buffer[i] == value
  {
    for i := 0 to buffer.Length
      invariant forall k :: 0 <= k < i ==> buffer[k] == value
    {
      buffer[i] := value;
    }
  }

  lemma {:induction false} ZeroMatrix(flat: seq<Scalar>, n: nat, w: nat)
    requires |flat| == Offset(n, w) && forall i :: 0 <= i < |flat| ==> flat[i] == Zero
    ensures Rows(flat, n, w) == seq(n, r => seq(w, c => Zero))
  {
    forall r | 0 <= r < n
      ensures Rows(flat, n, w)[r] == seq(w, c => Zero)
    {
      RowInside(n, w, r);
      assert Rows(flat, n, w)[r] == Row(flat, n, w, r);
    }
  }
}
