/** The gated delta mixer, with its shift registers and running state, is the plain recurrence over the reals. */
module RealDelta {
  import opened Matrix
  import opened Scalars
  import opened Readings
  import opened Kernels
  import opened DeltaNet
  import opened DeltaRuns
  import opened DeltaRule
  import opened Qwen35Config
  import opened ReferenceNetwork
  import opened RealNetwork
  import opened RealKernels
  import opened RealAttention

  // ----- one head's update -----

  lemma {:induction false} AnswerReal(rd: Reading, m: seq<seq<Scalar>>, key: seq<Scalar>, w: nat)
    requires IsMatrix(m, |key|, w)
    ensures Vec(rd, Recall(m, key, w)) == Answer(Vecs(rd, m), Vec(rd, key), w)
  {
    hide Eval, DotD, Dot, Column, Component, Vec, Vecs;
    forall j | 0 <= j < w
      ensures Vec(rd, Recall(m, key, w))[j] == Answer(Vecs(rd, m), Vec(rd, key), w)[j]
    {
      EvalInner(rd, Column(m, w, j), key);
      EvalNarrow(rd, DotD(Column(m, w, j), key, |key|));
      ColumnReal(rd, m, w, j);
    }
  }

  lemma {:induction false} KeptReal(rd: Reading, m: seq<seq<Scalar>>, decay: Scalar)
    ensures Vecs(rd, Decayed(m, decay)) == Kept(Vecs(rd, m), Eval(rd, decay))
  {
    hide Eval, ScaleRow, Scaled, Vec;
    forall r | 0 <= r < |m|
      ensures Vecs(rd, Decayed(m, decay))[r] == Kept(Vecs(rd, m), Eval(rd, decay))[r]
    {
      ScaleReal(rd, m[r], decay);
    }
  }

  lemma {:induction false} UpdateCell(rd: Reading, m: seq<seq<Scalar>>, key: seq<Scalar>, v: seq<Scalar>,
                                      beta: Scalar, decay: Scalar, r: nat, j: nat)
    requires IsMatrix(m, |key|, |v|) && r < |key| && j < |v|
    ensures
      var kept := Kept(Vecs(rd, m), Eval(rd, decay));
      Eval(rd, UpdateHead(m, key, v, beta, decay)[r][j])
      == kept[r][j]
         + Product(Eval(rd, key[r]), Product(Eval(rd, v[j]) - Answer(kept, Vec(rd, key), |v|)[j], Eval(rd, beta)))
  {
    hide Eval, UpdateHead, Recall, Answer, Decayed;
    UpdateIsDeltaRule(rd, m, key, v, beta, decay, r, j);
    KeptReal(rd, m, decay);
    AnswerReal(rd, Decayed(m, decay), key, |v|);
  }

  lemma {:induction false} UpdateReal(rd: Reading, m: seq<seq<Scalar>>, key: seq<Scalar>, v: seq<Scalar>, beta: Scalar, decay: Scalar)
    requires IsMatrix(m, |key|, |v|)
    ensures Vecs(rd, UpdateHead(m, key, v, beta, decay))
            == DeltaUpdate(Vecs(rd, m), Vec(rd, key), Vec(rd, v), Eval(rd, beta), Eval(rd, decay))
  {
    hide Eval, UpdateHead, Answer, Kept, Product;
    var left := Vecs(rd, UpdateHead(m, key, v, beta, decay));
    var right := DeltaUpdate(Vecs(rd, m), Vec(rd, key), Vec(rd, v), Eval(rd, beta), Eval(rd, decay));
    forall r | 0 <= r < |key|
      ensures left[r] == right[r]
    {
      forall j | 0 <= j < |v|
        ensures left[r][j] == right[r][j]
      {
        UpdateCell(rd, m, key, v, beta, decay, r, j);
      }
    }
  }

  // ----- a packed row, taken apart -----

  lemma {:induction false} PackedLinearParts(c: Config, w: LinearMixerWeights, x: seq<Scalar>, n: nat)
    requires LinearFits(c, w) && |x| == c.hiddenSize && n > 0
    ensures
      var args, row, heads := DeltaArgsOf(c, n), PackLinearRow(c, w, x), c.linearValueHeads;
      var conv := args.ConvDim();
      && |row| == args.Stride()
      && row[..conv] == LinearRow(x, Rows(w.qkv, QkvWidth(c), c.hiddenSize))
      && row[conv..conv + heads] == LinearRow(x, Rows(w.beta, heads, c.hiddenSize))
      && row[conv + heads..conv + heads + heads] == LinearRow(x, Rows(w.alpha, heads, c.hiddenSize))
      && row[conv + heads + heads..] == LinearRow(x, Rows(w.gate, ValueWidth(c), c.hiddenSize))
  {
    hide LinearRow, Rows, Offset;
    FourParts(LinearRow(x, Rows(w.qkv, QkvWidth(c), c.hiddenSize)),
              LinearRow(x, Rows(w.beta, c.linearValueHeads, c.hiddenSize)),
              LinearRow(x, Rows(w.alpha, c.linearValueHeads, c.hiddenSize)),
              LinearRow(x, Rows(w.gate, ValueWidth(c), c.hiddenSize)));
  }

  lemma {:induction false} BetaReal(rd: Reading, c: Config, w: LinearMixerWeights, x: seq<Scalar>, n: nat, h: nat)
    requires LinearFits(c, w) && |x| == c.hiddenSize && n > 0 && h < c.linearValueHeads
    ensures |PackLinearRow(c, w, x)| == DeltaArgsOf(c, n).Stride()
    ensures Eval(rd, Beta(DeltaArgsOf(c, n), PackLinearRow(c, w, x), h)) == WriteGate(rd, c, w, Vec(rd, x), h)
  {
    hide Eval, PackLinearRow, Offset, LinearRow, Affine, Rows, Sigmoid, Logistic;
    var args, row := DeltaArgsOf(c, n), PackLinearRow(c, w, x);
    var conv := args.ConvDim();
    PackedLinearParts(c, w, x, n);
    LinearReal(rd, x, w.beta, c.linearValueHeads);
    assert row[conv + h] == row[conv..conv + c.linearValueHeads][h];
    SigmoidReal(rd, row[conv + h]);
  }

  lemma {:induction false} SoftplusReal(rd: Reading, z: Scalar)
    ensures Eval(rd, Softplus(z)) == LogOnePlusExp(rd, Eval(rd, z))
  {
    hide Eval, Softplus;
    EvalSoftplus(rd, z);
  }

  lemma {:induction false} EvalPower(rd: Reading, a: Scalar, z: Scalar)
    ensures Eval(rd, Exp(Mul(a, Softplus(z)))) == rd.exp(Product(Eval(rd, a), LogOnePlusExp(rd, Eval(rd, z))))
  {
    hide Eval, Softplus, LogOnePlusExp;
    SoftplusReal(rd, z);
    EvalMul(rd, a, Softplus(z));
    EvalExp(rd, Mul(a, Softplus(z)));
    assert Eval(rd, Mul(a, Softplus(z))) == Product(Eval(rd, a), Eval(rd, Softplus(z)));
  }

  lemma {:induction false} DecayReal(rd: Reading, c: Config, w: LinearMixerWeights, x: seq<Scalar>, n: nat, h: nat)
    requires LinearFits(c, w) && |x| == c.hiddenSize && n > 0 && h < c.linearValueHeads
    ensures |PackLinearRow(c, w, x)| == DeltaArgsOf(c, n).Stride() && FitsDelta(DeltaArgsOf(c, n), w.delta)
    ensures Eval(rd, Decay(DeltaArgsOf(c, n), w.delta, PackLinearRow(c, w, x), h)) == KeepGate(rd, c, w, Vec(rd, x), h)
  {
    hide Eval, PackLinearRow, Offset, LinearRow, Affine, Rows, Softplus, LogOnePlusExp, Product;
    var args, row, heads := DeltaArgsOf(c, n), PackLinearRow(c, w, x), c.linearValueHeads;
    var at := args.ConvDim() + heads;
    PackedLinearParts(c, w, x, n);
    LinearReal(rd, x, w.alpha, heads);
    assert row[at + h] == row[at..at + heads][h];
    var z := Add(row[at + h], w.delta.dtBias[h]);
    EvalAdd(rd, row[at + h], w.delta.dtBias[h]);
    var alpha := Affine(Vec(rd, w.alpha), heads, Vec(rd, x));
    assert Eval(rd, row[at + h]) == alpha[h];
    assert Eval(rd, z) == alpha[h] + Eval(rd, w.delta.dtBias[h]);
    EvalPower(rd, w.delta.recurrentA[h], z);
  }

  // ----- the convolved row, taken apart -----

  lemma {:induction false} KeyOfReal(rd: Reading, c: Config, y: seq<Scalar>, n: nat, k: nat)
    requires n > 0 && |y| == QkvWidth(c) && k < c.linearKeyHeads
    ensures Vec(rd, KeyOf(DeltaArgsOf(c, n), y, k)) == DeltaKey(rd, c, Vec(rd, y), k)
  {
    hide Eval, L2Row, Unit, Offset;
    var keys, dim := Offset(c.linearKeyHeads, c.linearHeadDim), c.linearHeadDim;
    RowInside(c.linearKeyHeads, dim, k);
    var at := keys + Offset(k, dim);
    UnitReal(rd, y[at..at + dim]);
    SubSlice(y, keys, keys, Offset(k, dim), dim);
    assert Row(Vec(rd, y)[keys..keys + keys], c.linearKeyHeads, dim, k) == Vec(rd, y[at..at + dim]);
  }

  lemma {:induction false} QueryOfReal(rd: Reading, c: Config, y: seq<Scalar>, n: nat, k: nat)
    requires n > 0 && |y| == QkvWidth(c) && k < c.linearKeyHeads
    ensures Vec(rd, QueryOf(DeltaArgsOf(c, n), y, k)) == DeltaQuery(rd, c, Vec(rd, y), k)
  {
    hide Eval, L2Row, Unit, Offset, ScaleRow, Scaled, Ratio;
    var keys, dim, args := Offset(c.linearKeyHeads, c.linearHeadDim), c.linearHeadDim, DeltaArgsOf(c, n);
    RowInside(c.linearKeyHeads, dim, k);
    var at := Offset(k, dim);
    UnitReal(rd, y[at..at + dim]);
    ScaleReal(rd, L2Row(y[at..at + dim], L2Epsilon), QueryScale(args));
    EvalQueryScale(rd, args);
    assert Row(Vec(rd, y)[..keys], c.linearKeyHeads, dim, k) == Vec(rd, y[at..at + dim]);
  }

  lemma {:induction false} EvalQueryScale(rd: Reading, args: DeltaArgs)
    ensures Eval(rd, QueryScale(args)) == Ratio(1.0, rd.sqrt(args.keyDim as real))
  {
    hide Ratio;
    EvalSqrt(rd, OfNat(args.keyDim));
    EvalDiv(rd, One, Sqrt(OfNat(args.keyDim)));
  }

  lemma {:induction false} ValueOfReal(rd: Reading, c: Config, y: seq<Scalar>, n: nat, h: nat)
    requires n > 0 && |y| == QkvWidth(c) && h < c.linearValueHeads
    ensures Vec(rd, ValueOf(DeltaArgsOf(c, n), y, h)) == DeltaValue(c, Vec(rd, y), h)
  {
    hide Eval, Offset;
    var keys, dim := Offset(c.linearKeyHeads, c.linearHeadDim), c.linearHeadDim;
    RowInside(c.linearValueHeads, dim, h);
    var at := keys + keys + Offset(h, dim);
    assert Row(Vec(rd, y)[keys + keys..], c.linearValueHeads, dim, h) == Vec(rd, y[at..at + dim]);
  }

  // ----- the convolution -----

  lemma {:induction false} TapsReal(rd: Reading, init: Scalar, history: seq<Scalar>, taps: seq<Scalar>, window: seq<real>, n: nat)
    requires n <= |history| < |taps| == |window|
    requires forall i :: 0 <= i < |history| ==> window[i] == Eval(rd, history[i])
    ensures Eval(rd, DotF(init, history, taps, n)) == Eval(rd, init) + Total(Times(window, Vec(rd, taps))[..n])
  {
    hide Eval, Total;
    if n == 0 {
      TotalEmpty();
      assert Times(window, Vec(rd, taps))[..0] == [];
    } else {
      TapsReal(rd, init, history, taps, window, n - 1);
      EvalDotF(rd, init, history, taps, n);
      TotalPrefix(Times(window, Vec(rd, taps)), n - 1);
    }
  }

  /** The newest input first, then the history: the same sum as the whole window against all the taps. */
  lemma {:induction false} SlidingReal(rd: Reading, signal: seq<Scalar>, taps: seq<Scalar>, t: nat, window: seq<real>)
    requires 0 < |taps| == |window| && t + |taps| <= |signal|
    requires forall i :: 0 <= i < |taps| ==> window[i] == Eval(rd, signal[t + i])
    ensures Eval(rd, SlidingConvolution(signal, taps, t)) == Swish(rd, Dot(window, Vec(rd, taps)))
  {
    hide Eval, Total, Silu, Swish, DotF;
    var n := |taps| - 1;
    var newest := Mul(signal[t + n], taps[n]);
    var p := Times(window, Vec(rd, taps));
    TapsReal(rd, newest, signal[t..t + n], taps, window, n);
    EvalMul(rd, signal[t + n], taps[n]);
    TotalPrefix(p, n);
    assert p[..n + 1] == p;
    SiluReal(rd, DotF(newest, signal[t..t + n], taps, n));
  }

  lemma {:induction false} SignalReal(rd: Reading, c: Config, w: LinearMixerWeights, xs: seq<seq<Scalar>>, n: nat, t: nat, ch: nat, i: nat)
    requires LinearFits(c, w) && t < |xs| && n > 0 && ch < QkvWidth(c) && i < c.convolutionWidth && Sized(c, xs)
    ensures
      var args := DeltaArgsOf(c, n);
      && args.Valid() && PackedRows(args, PackLinear(c, w, xs)) && Fits(args, ZeroMemory(args))
      && Eval(rd, (ZeroMemory(args).histories[ch] + Channel(PackLinear(c, w, xs), ch))[t + i])
         == Window(Projected(rd, c, w, Vecs(rd, xs)), t, c.convolutionWidth, ch)[i]
  {
    hide Eval, PackLinearRow, Offset, LinearRow, Affine, Rows;
    var args, packed, k := DeltaArgsOf(c, n), PackLinear(c, w, xs), t + i - (c.convolutionWidth - 1);
    EvalOne(rd);
    if k >= 0 {
      PackedLinearParts(c, w, xs[k], n);
      LinearReal(rd, xs[k], w.qkv, QkvWidth(c));
      assert packed[k][ch] == packed[k][..args.ConvDim()][ch];
    }
  }

  // ----- what the mixer holds at a token -----

  ghost function PackedAt(c: Config, w: LinearMixerWeights, xs: seq<seq<Scalar>>, n: nat): (rows: seq<seq<Scalar>>)
    requires LinearFits(c, w) && n > 0 && Sized(c, xs)
    ensures |rows| == |xs| && PackedRows(DeltaArgsOf(c, n), rows)
    ensures DeltaArgsOf(c, n).Valid() && FitsDelta(DeltaArgsOf(c, n), w.delta)
  {
    PackLinear(c, w, xs)
  }

  /** The state after the first `t` tokens. */
  ghost function MemoryAt(c: Config, w: LinearMixerWeights, xs: seq<seq<Scalar>>, n: nat, t: nat): (memory: Memory)
    requires LinearFits(c, w) && t <= |xs| && n > 0 && Sized(c, xs)
    ensures DeltaArgsOf(c, n).Valid() && Fits(DeltaArgsOf(c, n), memory)
  {
    RunMemory(DeltaArgsOf(c, n), w.delta, ZeroMemory(DeltaArgsOf(c, n)), PackedAt(c, w, xs, n)[..t])
  }

  /** The convolved row of token `t`. */
  ghost function RowAt(c: Config, w: LinearMixerWeights, xs: seq<seq<Scalar>>, n: nat, t: nat): (y: seq<Scalar>)
    requires LinearFits(c, w) && t < |xs| && n > 0 && Sized(c, xs)
    ensures |y| == QkvWidth(c)
  {
    ConvolveAll(DeltaArgsOf(c, n), w.delta, MemoryAt(c, w, xs, n, t).histories, PackedAt(c, w, xs, n)[t])
  }

  /** What the value heads answer at token `t`, before the output norm. */
  ghost function RawAt(c: Config, w: LinearMixerWeights, xs: seq<seq<Scalar>>, n: nat, t: nat): (raw: seq<seq<Scalar>>)
    requires LinearFits(c, w) && t < |xs| && n > 0 && Sized(c, xs)
    ensures IsMatrix(raw, c.linearValueHeads, c.linearHeadDim)
  {
    var args, y := DeltaArgsOf(c, n), RowAt(c, w, xs, n, t);
    ReadHeads(args, StepHeads(args, w.delta, MemoryAt(c, w, xs, n, t).heads, PackedAt(c, w, xs, n)[t], y), y)
  }

  ghost function OutputAt(c: Config, w: LinearMixerWeights, xs: seq<seq<Scalar>>, n: nat, t: nat): (out: seq<Scalar>)
    requires LinearFits(c, w) && t < |xs| && n > 0 && Sized(c, xs)
    ensures |out| == c.hiddenSize == ValueWidth(c)
  {
    StepRow(DeltaArgsOf(c, n), w.delta, MemoryAt(c, w, xs, n, t), PackedAt(c, w, xs, n)[t])
  }

  lemma {:induction false} ConvolvedReal(rd: Reading, c: Config, w: LinearMixerWeights, xs: seq<seq<Scalar>>, n: nat, t: nat)
    requires LinearFits(c, w) && t < |xs| && n > 0 && Sized(c, xs)
    ensures Wide(Vecs(rd, xs), c.hiddenSize)
    ensures Vec(rd, RowAt(c, w, xs, n, t)) == ConvolvedAt(rd, c, w, Vecs(rd, xs), t)
  {
    hide Eval, PackLinearRow, Offset, Window, Projected, Dot, Swish, Row, RunMemory, SlidingConvolution, ZeroMemory;
    var args, packed := DeltaArgsOf(c, n), PackedAt(c, w, xs, n);
    var memory := ZeroMemory(args);
    var left, right := RowAt(c, w, xs, n, t), ConvolvedAt(rd, c, w, Vecs(rd, xs), t);
    forall ch | 0 <= ch < QkvWidth(c)
      ensures Eval(rd, left[ch]) == right[ch]
    {
      var taps := Row(w.delta.conv, QkvWidth(c), c.convolutionWidth, ch);
      var window := Window(Projected(rd, c, w, Vecs(rd, xs)), t, c.convolutionWidth, ch);
      forall i | 0 <= i < |taps|
        ensures Eval(rd, (memory.histories[ch] + Channel(packed, ch))[t + i]) == window[i]
      {
        SignalReal(rd, c, w, xs, n, t, ch, i);
      }
      ConvolutionIsSliding(args, w.delta, memory, packed, t, ch);
      SlidingReal(rd, memory.histories[ch] + Channel(packed, ch), taps, t, window);
      VecRow(rd, w.delta.conv, QkvWidth(c), c.convolutionWidth, ch);
    }
  }

  // ----- the state -----

  lemma {:induction false} StepHeadReal(rd: Reading, c: Config, w: LinearMixerWeights, m: seq<seq<Scalar>>, x: seq<Scalar>,
                                        y: seq<Scalar>, n: nat, h: nat)
    requires LinearFits(c, w) && |x| == c.hiddenSize && n > 0 && h < c.linearValueHeads && |y| == QkvWidth(c)
    requires IsMatrix(m, c.linearHeadDim, c.linearHeadDim)
    ensures
      var args := DeltaArgsOf(c, n);
      && args.Valid() && FitsDelta(args, w.delta) && |PackLinearRow(c, w, x)| == args.Stride()
      && Vecs(rd, StepHead(args, w.delta, m, PackLinearRow(c, w, x), y, h))
         == DeltaUpdate(Vecs(rd, m), DeltaKey(rd, c, Vec(rd, y), h % c.linearKeyHeads), DeltaValue(c, Vec(rd, y), h),
                        WriteGate(rd, c, w, Vec(rd, x), h), KeepGate(rd, c, w, Vec(rd, x), h))
  {
    hide Eval, PackLinearRow, Offset, UpdateHead, DeltaUpdate, KeyOf, ValueOf, DeltaKey, DeltaValue, Beta, Decay, WriteGate,
         KeepGate;
    var args, row := DeltaArgsOf(c, n), PackLinearRow(c, w, x);
    KeyOfReal(rd, c, y, n, h % c.linearKeyHeads);
    ValueOfReal(rd, c, y, n, h);
    BetaReal(rd, c, w, x, n, h);
    DecayReal(rd, c, w, x, n, h);
    UpdateReal(rd, m, KeyOf(args, y, KeyHead(args, h)), ValueOf(args, y, h), Beta(args, row, h), Decay(args, w.delta, row, h));
  }

  lemma {:induction false} ZeroReal(rd: Reading, args: DeltaArgs, h: nat)
    requires args.Valid() && h < args.valueHeads
    ensures Vecs(rd, ZeroMemory(args).heads[h]) == seq(args.keyDim, r => seq(args.valueDim, j => 0.0))
  {
    hide Eval;
    EvalOne(rd);
    var left, right := Vecs(rd, ZeroMemory(args).heads[h]), seq(args.keyDim, r => seq(args.valueDim, j => 0.0));
    forall r | 0 <= r < args.keyDim
      ensures left[r] == right[r]
    {
      assert forall j :: 0 <= j < args.valueDim ==> left[r][j] == 0.0;
    }
  }

  /** The matrix the state buffer holds for a head is the one the recurrence defines. */
  lemma {:induction false} StateReal(rd: Reading, c: Config, w: LinearMixerWeights, xs: seq<seq<Scalar>>, n: nat, h: nat, t: nat)
    requires LinearFits(c, w) && t <= |xs| && n > 0 && h < c.linearValueHeads && Sized(c, xs)
    ensures Wide(Vecs(rd, xs), c.hiddenSize)
    ensures Vecs(rd, MemoryAt(c, w, xs, n, t).heads[h]) == StateAfter(rd, c, w, Vecs(rd, xs), h, t)
    decreases t
  {
    hide Vec, Vecs, PackLinearRow, Offset, ZeroMemory, ConvolveAll, ConvolvedAt, StepHead, DeltaUpdate, DeltaKey, DeltaValue,
         WriteGate, KeepGate, ShiftAll;
    var args, packed := DeltaArgsOf(c, n), PackedAt(c, w, xs, n);
    if t == 0 {
      ZeroReal(rd, args, h);
    } else {
      StateReal(rd, c, w, xs, n, h, t - 1);
      ConvolvedReal(rd, c, w, xs, n, t - 1);
      assert packed[..t][..t - 1] == packed[..t - 1];
      StepHeadReal(rd, c, w, MemoryAt(c, w, xs, n, t - 1).heads[h], xs[t - 1], RowAt(c, w, xs, n, t - 1), n, h);
    }
  }

  // ----- the output row -----

  lemma {:induction false} DeltaHeadReal(rd: Reading, c: Config, w: LinearMixerWeights, xs: seq<seq<Scalar>>, n: nat, h: nat, t: nat)
    requires LinearFits(c, w) && t < |xs| && n > 0 && h < c.linearValueHeads && Sized(c, xs)
    ensures Wide(Vecs(rd, xs), c.hiddenSize)
    ensures Vec(rd, RmsRow(RawAt(c, w, xs, n, t)[h], w.delta.outputNorm, Epsilon(c))) == DeltaHeadAt(rd, c, w, Vecs(rd, xs), t, h)
  {
    hide Vec, Vecs, PackLinearRow, Offset, ZeroMemory, ConvolveAll, ConvolvedAt, StepHead, StateAfter, Recall, Answer, DeltaQuery,
         QueryOf, RmsRow, Rms, ShiftAll, RowAt, MemoryAt;
    var args, packed, y := DeltaArgsOf(c, n), PackedAt(c, w, xs, n), RowAt(c, w, xs, n, t);
    ConvolvedReal(rd, c, w, xs, n, t);
    StateReal(rd, c, w, xs, n, h, t + 1);
    StepAt(c, w, xs, n, t, h);
    var head := StepHead(args, w.delta, MemoryAt(c, w, xs, n, t).heads[h], packed[t], y, h);
    var query := QueryOf(args, y, KeyHead(args, h));
    QueryOfReal(rd, c, y, n, h % c.linearKeyHeads);
    AnswerReal(rd, head, query, c.linearHeadDim);
    RmsReal(rd, Recall(head, query, c.linearHeadDim), w.delta.outputNorm, Epsilon(c));
    EvalConfig(rd, c);
  }

  lemma {:induction false} StepAt(c: Config, w: LinearMixerWeights, xs: seq<seq<Scalar>>, n: nat, t: nat, h: nat)
    requires LinearFits(c, w) && t < |xs| && n > 0 && h < c.linearValueHeads && Sized(c, xs)
    ensures
      MemoryAt(c, w, xs, n, t + 1).heads[h]
      == StepHead(DeltaArgsOf(c, n), w.delta, MemoryAt(c, w, xs, n, t).heads[h], PackedAt(c, w, xs, n)[t], RowAt(c, w, xs, n, t), h)
  {
    hide PackedAt, Offset, ZeroMemory, ConvolveAll, StepHead, ShiftAll;
    var packed := PackedAt(c, w, xs, n);
    assert packed[..t + 1][..t] == packed[..t];
  }

  lemma {:induction false} OutputReal(rd: Reading, c: Config, w: LinearMixerWeights, xs: seq<seq<Scalar>>, n: nat, t: nat)
    requires LinearFits(c, w) && t < |xs| && n > 0 && Sized(c, xs)
    ensures Wide(Vecs(rd, xs), c.hiddenSize)
    ensures Vec(rd, OutputAt(c, w, xs, n, t))
            == SwishTimes(rd, Affine(Vec(rd, w.gate), ValueWidth(c), Vec(rd, xs[t])), DeltaHeads(rd, c, w, Vecs(rd, xs), t))
  {
    hide Vec, PackLinearRow, Offset, MemoryAt, ConvolveAll, StepHeads, ReadHeads, RmsRow, Flatten, Row, Rows, LinearRow, Affine,
         DeltaHeadAt, GateRow, SwishTimes;
    var args, packed, raw := DeltaArgsOf(c, n), PackedAt(c, w, xs, n), RawAt(c, w, xs, n, t);
    var heads := RmsRows(raw, c.linearHeadDim, w.delta.outputNorm, Epsilon(c));
    forall h | 0 <= h < c.linearValueHeads
      ensures Vec(rd, heads[h]) == DeltaHeadAt(rd, c, w, Vecs(rd, xs), t, h)
    {
      DeltaHeadReal(rd, c, w, xs, n, h, t);
    }
    VecFlatten(rd, heads, c.linearHeadDim);
    assert Vecs(rd, heads) == seq(c.linearValueHeads, h requires 0 <= h < c.linearValueHeads => DeltaHeadAt(rd, c, w, Vecs(rd, xs), t, h));
    PackedLinearParts(c, w, xs[t], n);
    LinearReal(rd, xs[t], w.gate, ValueWidth(c));
    GateRowReal(rd, Flatten(heads, c.linearHeadDim), packed[t][args.ConvDim() + args.valueHeads + args.valueHeads..]);
  }

  lemma {:induction false} GateRowReal(rd: Reading, y: seq<Scalar>, z: seq<Scalar>)
    requires |y| == |z|
    ensures Vec(rd, GateRow(y, z)) == SwishTimes(rd, Vec(rd, z), Vec(rd, y))
  {
    hide Eval, Silu, Swish;
    forall i | 0 <= i < |y|
      ensures Vec(rd, GateRow(y, z))[i] == SwishTimes(rd, Vec(rd, z), Vec(rd, y))[i]
    {
      EvalMul(rd, y[i], Silu(z[i]));
      SiluReal(rd, z[i]);
    }
  }

  /** Row `t` of the mixer is the plain recurrence, read out at token `t`. */
  lemma {:induction false} LinearMixerReal(rd: Reading, c: Config, w: LinearMixerWeights, xs: seq<seq<Scalar>>, t: nat)
    requires LinearFits(c, w) && t < |xs| && Sized(c, xs)
    ensures Wide(Vecs(rd, xs), c.hiddenSize)
    ensures Vec(rd, LinearMixerRows(c, w, xs)[t]) == LinearAt(rd, c, w, Vecs(rd, xs), t)
  {
    hide Vec, PackLinearRow, Offset, ZeroMemory, StepRow, RunMemory, LinearRow, Affine, Rows, DeltaHeads, SwishTimes;
    OutputReal(rd, c, w, xs, |xs|, t);
    LinearReal(rd, OutputAt(c, w, xs, |xs|, t), w.output, c.hiddenSize);
  }
}
