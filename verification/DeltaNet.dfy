/** The gated delta mixer of the CPU reference as a function of its state and packed rows:
    causal convolution over a shift register, then one key-by-value matrix per value head. */
module DeltaNet {
  import opened Matrix
  import opened Scalars
  import opened Kernels

  datatype DeltaArgs = DeltaArgs(
    tokens: nat, hiddenSize: nat, keyHeads: nat, valueHeads: nat,
    keyDim: nat, valueDim: nat, convWidth: nat, epsilon: Scalar)
  {
    /** The integer checks of `validate_delta_args`. */
    predicate Valid() {
      && tokens > 0 && hiddenSize > 0 && keyHeads > 0 && valueHeads > 0
      && keyDim > 0 && valueDim > 0 && convWidth > 0
      && valueHeads % keyHeads == 0
      && ValueSize() == hiddenSize
    }

    function KeySize(): nat { Offset(keyHeads, keyDim) }

    function ValueSize(): nat { Offset(valueHeads, valueDim) }

    function ConvDim(): nat { KeySize() + KeySize() + ValueSize() }

    function Stride(): nat { ConvDim() + valueHeads + valueHeads + hiddenSize }

    /** Floats in one head's key-by-value matrix. */
    function HeadSize(): nat { Offset(keyDim, valueDim) }

    function History(): nat
      requires convWidth > 0
    {
      convWidth - 1
    }
  }

  datatype DeltaWeights = DeltaWeights(
    conv: seq<Scalar>, recurrentA: seq<Scalar>, dtBias: seq<Scalar>, outputNorm: seq<Scalar>)

  predicate FitsDelta(args: DeltaArgs, weights: DeltaWeights) {
    && |weights.conv| == Offset(args.ConvDim(), args.convWidth)
    && |weights.recurrentA| == args.valueHeads
    && |weights.dtBias| == args.valueHeads
    && |weights.outputNorm| == args.valueDim
  }

  /** What the two state buffers hold: a history per channel, a matrix per value head. */
  datatype Memory = Memory(histories: seq<seq<Scalar>>, heads: seq<seq<seq<Scalar>>>)

  ghost predicate Fits(args: DeltaArgs, memory: Memory)
    requires args.Valid()
  {
    && |memory.histories| == args.ConvDim()
    && (forall c :: 0 <= c < |memory.histories| ==> |memory.histories[c]| == args.History())
    && |memory.heads| == args.valueHeads
    && (forall h :: 0 <= h < |memory.heads| ==> IsMatrix(memory.heads[h], args.keyDim, args.valueDim))
  }

  ghost predicate IsMatrix(m: seq<seq<Scalar>>, n: nat, w: nat) {
    |m| == n && forall r :: 0 <= r < n ==> |m[r]| == w
  }

  // ----- convolution -----

  /** One channel: the newest input meets the last tap, the history the taps before it. */
  function ConvolveChannel(x: Scalar, history: seq<Scalar>, taps: seq<Scalar>): Scalar
    requires |taps| == |history| + 1
  {
    Silu(DotF(Mul(x, taps[|history|]), history, taps, |history|))
  }

  function Shift(history: seq<Scalar>, x: Scalar): (next: seq<Scalar>)
    ensures |next| == |history|
  {
    if |history| == 0 then [] else history[1..] + [x]
  }

  function ConvolveAll(args: DeltaArgs, weights: DeltaWeights, histories: seq<seq<Scalar>>, x: seq<Scalar>): (y: seq<Scalar>)
    requires args.Valid() && FitsDelta(args, weights)
    requires |x| == args.Stride() && IsMatrix(histories, args.ConvDim(), args.History())
    ensures |y| == args.ConvDim()
  {
    seq(args.ConvDim(), c requires 0 <= c < args.ConvDim() =>
      ConvolveChannel(x[c], histories[c], Row(weights.conv, args.ConvDim(), args.convWidth, c)))
  }

  function ShiftAll(histories: seq<seq<Scalar>>, x: seq<Scalar>): (next: seq<seq<Scalar>>)
    requires |histories| <= |x|
    ensures |next| == |histories|
    ensures forall c :: 0 <= c < |next| ==> |next[c]| == |histories[c]|
  {
    seq(|histories|, c requires 0 <= c < |histories| => Shift(histories[c], x[c]))
  }

  // ----- one value head -----

  function Decayed(m: seq<seq<Scalar>>, decay: Scalar): (d: seq<seq<Scalar>>)
    ensures |d| == |m| && forall r :: 0 <= r < |d| ==> |d[r]| == |m[r]|
  {
    seq(|m|, r requires 0 <= r < |m| => ScaleRow(m[r], decay))
  }

  /** What the memory holds for a key: the transpose of the matrix times the key. */
  function Recall(m: seq<seq<Scalar>>, key: seq<Scalar>, w: nat): (v: seq<Scalar>)
    requires IsMatrix(m, |key|, w)
    ensures |v| == w
  {
    seq(w, c requires 0 <= c < w => ToFloat(DotD(Column(m, w, c), key, |key|)))
  }

  function Correction(v: seq<Scalar>, recalled: seq<Scalar>, beta: Scalar): (delta: seq<Scalar>)
    requires |v| == |recalled|
    ensures |delta| == |v|
  {
    seq(|v|, c requires 0 <= c < |v| => Mul(Sub(v[c], recalled[c]), beta))
  }

  function Write(m: seq<seq<Scalar>>, key: seq<Scalar>, delta: seq<Scalar>): (n: seq<seq<Scalar>>)
    requires IsMatrix(m, |key|, |delta|)
    ensures IsMatrix(n, |key|, |delta|)
  {
    seq(|m|, r requires 0 <= r < |m| => AddScaled(m[r], key[r], delta))
  }

  function UpdateHead(m: seq<seq<Scalar>>, key: seq<Scalar>, v: seq<Scalar>, beta: Scalar, decay: Scalar): (n: seq<seq<Scalar>>)
    requires IsMatrix(m, |key|, |v|)
    ensures IsMatrix(n, |key|, |v|)
  {
    var d := Decayed(m, decay);
    Write(d, key, Correction(v, Recall(d, key, |v|), beta))
  }

  // ----- one token -----

  function Beta(args: DeltaArgs, x: seq<Scalar>, h: nat): Scalar
    requires |x| == args.Stride() && h < args.valueHeads
  {
    Sigmoid(x[args.ConvDim() + h])
  }

  function Decay(args: DeltaArgs, weights: DeltaWeights, x: seq<Scalar>, h: nat): Scalar
    requires |x| == args.Stride() && FitsDelta(args, weights) && h < args.valueHeads
  {
    Exp(Mul(weights.recurrentA[h], Softplus(Add(x[args.ConvDim() + args.valueHeads + h], weights.dtBias[h]))))
  }

  function QueryScale(args: DeltaArgs): Scalar {
    Div(One, Sqrt(OfNat(args.keyDim)))
  }

  /** The query (key, value) stretch of head `h` in a convolved row. */
  function QueryOf(args: DeltaArgs, y: seq<Scalar>, h: nat): (q: seq<Scalar>)
    requires |y| == args.ConvDim() && h < args.keyHeads
    ensures |q| == args.keyDim
  {
    RowInside(args.keyHeads, args.keyDim, h);
    ScaleRow(L2Row(y[Offset(h, args.keyDim)..Offset(h, args.keyDim) + args.keyDim], L2Epsilon), QueryScale(args))
  }

  function KeyOf(args: DeltaArgs, y: seq<Scalar>, h: nat): (k: seq<Scalar>)
    requires |y| == args.ConvDim() && h < args.keyHeads
    ensures |k| == args.keyDim
  {
    RowInside(args.keyHeads, args.keyDim, h);
    var at := args.KeySize() + Offset(h, args.keyDim);
    L2Row(y[at..at + args.keyDim], L2Epsilon)
  }

  function ValueOf(args: DeltaArgs, y: seq<Scalar>, h: nat): (v: seq<Scalar>)
    requires |y| == args.ConvDim() && h < args.valueHeads
    ensures |v| == args.valueDim
  {
    RowInside(args.valueHeads, args.valueDim, h);
    var at := args.KeySize() + args.KeySize() + Offset(h, args.valueDim);
    y[at..at + args.valueDim]
  }

  /** The key head a value head reads. */
  function KeyHead(args: DeltaArgs, h: nat): (k: nat)
    requires args.Valid()
    ensures k < args.keyHeads
  {
    h % args.keyHeads
  }

  function StepHead(args: DeltaArgs, weights: DeltaWeights, m: seq<seq<Scalar>>, x: seq<Scalar>, y: seq<Scalar>, h: nat)
    : (n: seq<seq<Scalar>>)
    requires args.Valid() && FitsDelta(args, weights) && h < args.valueHeads
    requires |x| == args.Stride() && |y| == args.ConvDim() && IsMatrix(m, args.keyDim, args.valueDim)
    ensures IsMatrix(n, args.keyDim, args.valueDim)
  {
    UpdateHead(m, KeyOf(args, y, KeyHead(args, h)), ValueOf(args, y, h), Beta(args, x, h), Decay(args, weights, x, h))
  }

  function StepHeads(args: DeltaArgs, weights: DeltaWeights, heads: seq<seq<seq<Scalar>>>, x: seq<Scalar>, y: seq<Scalar>)
    : (next: seq<seq<seq<Scalar>>>)
    requires args.Valid() && FitsDelta(args, weights)
    requires |x| == args.Stride() && |y| == args.ConvDim() && |heads| == args.valueHeads
    requires forall h :: 0 <= h < |heads| ==> IsMatrix(heads[h], args.keyDim, args.valueDim)
    ensures |next| == |heads|
    ensures forall h :: 0 <= h < |next| ==> IsMatrix(next[h], args.keyDim, args.valueDim)
  {
    seq(|heads|, h requires 0 <= h < |heads| => StepHead(args, weights, heads[h], x, y, h))
  }

  /** What each value head answers to its query, after the update. */
  function ReadHeads(args: DeltaArgs, heads: seq<seq<seq<Scalar>>>, y: seq<Scalar>): (raw: seq<seq<Scalar>>)
    requires args.Valid() && |y| == args.ConvDim() && |heads| == args.valueHeads
    requires forall h :: 0 <= h < |heads| ==> IsMatrix(heads[h], args.keyDim, args.valueDim)
    ensures IsMatrix(raw, args.valueHeads, args.valueDim)
  {
    seq(|heads|, h requires 0 <= h < |heads| =>
      Recall(heads[h], QueryOf(args, y, KeyHead(args, h)), args.valueDim))
  }

  function GateRow(y: seq<Scalar>, z: seq<Scalar>): (out: seq<Scalar>)
    requires |y| == |z|
    ensures |out| == |y|
  {
    seq(|y|, i requires 0 <= i < |y| => Mul(y[i], Silu(z[i])))
  }

  function StepOutput(args: DeltaArgs, weights: DeltaWeights, raw: seq<seq<Scalar>>, x: seq<Scalar>): (out: seq<Scalar>)
    requires args.Valid() && FitsDelta(args, weights) && |x| == args.Stride()
    requires IsMatrix(raw, args.valueHeads, args.valueDim)
    ensures |out| == args.hiddenSize
  {
    GateRow(Flatten(RmsRows(raw, args.valueDim, weights.outputNorm, args.epsilon), args.valueDim),
            x[args.ConvDim() + args.valueHeads + args.valueHeads..])
  }

  function StepMemory(args: DeltaArgs, weights: DeltaWeights, memory: Memory, x: seq<Scalar>): (next: Memory)
    requires args.Valid() && FitsDelta(args, weights) && Fits(args, memory) && |x| == args.Stride()
    ensures Fits(args, next)
  {
    Memory(ShiftAll(memory.histories, x),
           StepHeads(args, weights, memory.heads, x, ConvolveAll(args, weights, memory.histories, x)))
  }

  function StepRow(args: DeltaArgs, weights: DeltaWeights, memory: Memory, x: seq<Scalar>): (out: seq<Scalar>)
    requires args.Valid() && FitsDelta(args, weights) && Fits(args, memory) && |x| == args.Stride()
    ensures |out| == args.hiddenSize
  {
    var y := ConvolveAll(args, weights, memory.histories, x);
    StepOutput(args, weights, ReadHeads(args, StepHeads(args, weights, memory.heads, x, y), y), x)
  }

  // ----- a sequence of tokens -----

  ghost predicate PackedRows(args: DeltaArgs, xs: seq<seq<Scalar>>) {
    forall t :: 0 <= t < |xs| ==> |xs[t]| == args.Stride()
  }

  function RunMemory(args: DeltaArgs, weights: DeltaWeights, memory: Memory, xs: seq<seq<Scalar>>): (end: Memory)
    requires args.Valid() && FitsDelta(args, weights) && Fits(args, memory) && PackedRows(args, xs)
    ensures Fits(args, end)
  {
    if |xs| == 0 then memory
    else StepMemory(args, weights, RunMemory(args, weights, memory, xs[..|xs| - 1]), xs[|xs| - 1])
  }

  function RunRows(args: DeltaArgs, weights: DeltaWeights, memory: Memory, xs: seq<seq<Scalar>>): (ys: seq<seq<Scalar>>)
    requires args.Valid() && FitsDelta(args, weights) && Fits(args, memory) && PackedRows(args, xs)
    ensures |ys| == |xs| && forall t :: 0 <= t < |ys| ==> |ys[t]| == args.hiddenSize
  {
    seq(|xs|, t requires 0 <= t < |xs| => StepRow(args, weights, RunMemory(args, weights, memory, xs[..t]), xs[t]))
  }

  /** The state a `GatedDeltaReferenceState` starts with. */
  function ZeroMemory(args: DeltaArgs): (memory: Memory)
    requires args.Valid()
    ensures Fits(args, memory)
  {
    Memory(seq(args.ConvDim(), c => seq(args.History(), i => Zero)),
           seq(args.valueHeads, h => seq(args.keyDim, r => seq(args.valueDim, c => Zero))))
  }
}
