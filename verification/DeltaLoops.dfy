/** `qwen35_gated_delta_step` and `qwen35_gated_delta_prefill`: the in-place loops over the
    flat convolution and recurrent buffers. */
module DeltaLoops {
  import opened Matrix
  import opened Scalars
  import opened Kernels
  import opened Attention
  import opened DeltaNet

  // ----- convolution -----

  method ConvolveCell(x: Scalar, histories: array<Scalar>, at: nat, taps: seq<Scalar>) returns (y: Scalar)
    requires 0 < |taps| && at + |taps| - 1 <= histories.Length
    ensures y == ConvolveChannel(x, histories[at..at + |taps| - 1], taps)
  {
    var n := |taps| - 1;
    ghost var history := histories[at..at + n];
    var sum := Mul(x, taps[n]);
    for i := 0 to n
      invariant sum == DotF(Mul(x, taps[n]), history, taps, i)
    {
      sum := Add(sum, Mul(histories[at + i], taps[i]));
    }
    y := Silu(sum);
  }

  method Convolve(args: DeltaArgs, weights: DeltaWeights, input: seq<Scalar>, histories: array<Scalar>)
    returns (convolved: array<Scalar>)
    requires args.Valid() && FitsDelta(args, weights) && |input| == args.Stride()
    requires histories.Length == Offset(args.ConvDim(), args.History())
    ensures fresh(convolved)
    ensures convolved[..] == ConvolveAll(args, weights, Rows(histories[..], args.ConvDim(), args.History()), input)
  {
    hide ConvolveAll, Rows, Offset, FitsDelta;
    convolved := new Scalar[args.ConvDim()](_ => Zero);
    ghost var target := ConvolveAll(args, weights, Rows(histories[..], args.ConvDim(), args.History()), input);
    for channel := 0 to args.ConvDim()
      invariant forall c :: 0 <= c < channel ==> convolved[c] == target[c]
    {
      convolved[channel] := ConvolveNth(args, weights, input, histories, channel);
    }
  }

  method ConvolveNth(args: DeltaArgs, weights: DeltaWeights, input: seq<Scalar>, histories: array<Scalar>, channel: nat)
    returns (y: Scalar)
    requires args.Valid() && FitsDelta(args, weights) && |input| == args.Stride() && channel < args.ConvDim()
    requires histories.Length == Offset(args.ConvDim(), args.History())
    ensures y == ConvolveAll(args, weights, Rows(histories[..], args.ConvDim(), args.History()), input)[channel]
  {
    hide ConvolveChannel, Offset;
    var n, w := args.ConvDim(), args.convWidth;
    RowInside(n, w, channel);
    RowInside(n, args.History(), channel);
    y := ConvolveCell(input[channel], histories, Offset(channel, args.History()),
                      weights.conv[Offset(channel, w)..Offset(channel, w) + w]);
  }

  method ShiftRow(histories: array<Scalar>, at: nat, n: nat, x: Scalar)
    requires 0 < n && at + n <= histories.Length
    modifies histories
    ensures histories[..] == Splice(old(histories[..]), at, Shift(old(histories[at..at + n]), x))
  {
    ghost var was := histories[..];
    ghost var target := Shift(was[at..at + n], x);
    for i := 0 to n - 1
      invariant forall k :: 0 <= k < histories.Length ==>
        histories[k] == if at <= k < at + i then target[k - at] else was[k]
    {
      histories[at + i] := histories[at + i + 1];
    }
    histories[at + n - 1] := x;
    ByCells(histories[..], was, at, target);
  }

  /** The histories after the first `done` channels have shifted. */
  function PartlyShifted(histories: seq<seq<Scalar>>, x: seq<Scalar>, done: nat): (next: seq<seq<Scalar>>)
    requires |histories| <= |x| && done <= |histories|
    ensures |next| == |histories|
    ensures forall c :: 0 <= c < |next| ==> |next[c]| == |histories[c]|
  {
    ShiftAll(histories[..done], x) + histories[done..]
  }

  lemma {:induction false} PartlyShiftedStep(histories: seq<seq<Scalar>>, x: seq<Scalar>, done: nat)
    requires |histories| <= |x| && done < |histories|
    ensures PartlyShifted(histories, x, done)[done] == histories[done]
    ensures PartlyShifted(histories, x, done + 1)
            == PartlyShifted(histories, x, done)[done := Shift(histories[done], x[done])]
  {
    hide Shift;
  }

  lemma {:induction false} PartlyShiftedEnds(histories: seq<seq<Scalar>>, x: seq<Scalar>)
    requires |histories| <= |x|
    ensures PartlyShifted(histories, x, 0) == histories
    ensures PartlyShifted(histories, x, |histories|) == ShiftAll(histories, x)
  {
    hide Shift;
    assert histories[..|histories|] == histories;
  }

  method ShiftHistories(histories: array<Scalar>, channels: nat, n: nat, input: seq<Scalar>)
    requires histories.Length == Offset(channels, n) && channels <= |input| && 0 < n
    modifies histories
    ensures Rows(histories[..], channels, n) == ShiftAll(old(Rows(histories[..], channels, n)), input)
  {
    hide Rows, Shift, PartlyShifted, ShiftAll, Offset, Splice;
    ghost var was := Rows(histories[..], channels, n);
    PartlyShiftedEnds(was, input);
    for channel := 0 to channels
      invariant Rows(histories[..], channels, n) == PartlyShifted(was, input, channel)
    {
      PartlyShiftedStep(was, input, channel);
      SetRow(histories[..], channels, n, channel, Shift(was[channel], input[channel]));
      ShiftRow(histories, Offset(channel, n), n, input[channel]);
    }
  }

  // ----- query and key heads -----

  ghost predicate OneNormalized(args: DeltaArgs, y0: seq<Scalar>, y1: seq<Scalar>, h: nat)
    requires |y0| == |y1| == args.ConvDim() && h < args.keyHeads
  {
    RowInside(args.keyHeads, args.keyDim, h);
    var at := Offset(h, args.keyDim);
    && y1[at..at + args.keyDim] == QueryOf(args, y0, h)
    && y1[args.KeySize() + at..args.KeySize() + at + args.keyDim] == KeyOf(args, y0, h)
  }

  ghost predicate HeadUntouched(args: DeltaArgs, y0: seq<Scalar>, y1: seq<Scalar>, h: nat)
    requires |y0| == |y1| == args.ConvDim() && h < args.keyHeads
  {
    RowInside(args.keyHeads, args.keyDim, h);
    var at := Offset(h, args.keyDim);
    && y1[at..at + args.keyDim] == y0[at..at + args.keyDim]
    && y1[args.KeySize() + at..args.KeySize() + at + args.keyDim]
       == y0[args.KeySize() + at..args.KeySize() + at + args.keyDim]
  }

  /** Queries and keys of the first `done` heads are normalised, everything else is as convolved. */
  ghost predicate HeadsNormalized(args: DeltaArgs, y0: seq<Scalar>, y1: seq<Scalar>, done: nat)
    requires done <= args.keyHeads
  {
    && |y0| == |y1| == args.ConvDim()
    && y1[args.KeySize() + args.KeySize()..] == y0[args.KeySize() + args.KeySize()..]
    && (forall h :: 0 <= h < done ==> OneNormalized(args, y0, y1, h))
    && (forall h :: done <= h < args.keyHeads ==> HeadUntouched(args, y0, y1, h))
  }

  lemma {:induction false} SpliceKeeps<T>(s: seq<T>, at: nat, mid: seq<T>, from: nat, to: nat)
    requires at + |mid| <= |s| && from <= to <= |s|
    requires to <= at || at + |mid| <= from
    ensures Splice(s, at, mid)[from..to] == s[from..to]
  {
  }

  lemma {:induction false} SplicePut<T>(s: seq<T>, at: nat, mid: seq<T>)
    requires at + |mid| <= |s|
    ensures Splice(s, at, mid)[at..at + |mid|] == mid
  {
  }

  /** Rewriting one head's query and key stretches leaves another head's alone. */
  lemma {:induction false} OtherHead(args: DeltaArgs, y1: seq<Scalar>, q: seq<Scalar>, k: seq<Scalar>, done: nat, h: nat)
    requires |y1| == args.ConvDim() && |q| == |k| == args.keyDim
    requires h < args.keyHeads && done < args.keyHeads && h != done
    ensures Offset(done, args.keyDim) + args.keyDim <= args.KeySize()
    ensures HeadUntouched(args, y1,
              Splice(Splice(y1, Offset(done, args.keyDim), q), args.KeySize() + Offset(done, args.keyDim), k), h)
  {
    hide Splice;
    RowInside(args.keyHeads, args.keyDim, h);
    RowInside(args.keyHeads, args.keyDim, done);
    if h < done {
      RowsApart(args.keyDim, h, done);
    } else {
      RowsApart(args.keyDim, done, h);
    }
    var ks, dim := args.KeySize(), args.keyDim;
    TwoSplicesKeep(y1, Offset(done, dim), ks + Offset(done, dim), q, k, Offset(h, dim));
    TwoSplicesKeep(y1, Offset(done, dim), ks + Offset(done, dim), q, k, ks + Offset(h, dim));
  }

  /** A stretch apart from two others survives their rewriting. */
  lemma {:induction false} TwoSplicesKeep<T>(y: seq<T>, at: nat, kAt: nat, q: seq<T>, k: seq<T>, other: nat)
    requires at + |q| <= kAt && |q| == |k| && kAt + |k| <= |y| && other + |q| <= |y|
    requires other + |q| <= at || at + |q| <= other
    requires other + |q| <= kAt || kAt + |q| <= other
    ensures Splice(Splice(y, at, q), kAt, k)[other..other + |q|] == y[other..other + |q|]
  {
    hide Splice;
    SpliceKeeps(y, at, q, other, other + |q|);
    SpliceKeeps(Splice(y, at, q), kAt, k, other, other + |q|);
  }

  lemma {:induction false} TwoSplicesPut<T>(y: seq<T>, at: nat, kAt: nat, q: seq<T>, k: seq<T>, tail: nat)
    requires at + |q| <= kAt && |q| == |k| && kAt + |k| <= tail <= |y|
    ensures Splice(Splice(y, at, q), kAt, k)[at..at + |q|] == q
    ensures Splice(Splice(y, at, q), kAt, k)[kAt..kAt + |q|] == k
    ensures Splice(Splice(y, at, q), kAt, k)[tail..] == y[tail..]
  {
    hide Splice;
    SplicePut(y, at, q);
    SplicePut(Splice(y, at, q), kAt, k);
    SpliceKeeps(Splice(y, at, q), kAt, k, at, at + |q|);
    SpliceKeeps(y, at, q, tail, |y|);
    SpliceKeeps(Splice(y, at, q), kAt, k, tail, |y|);
  }

  lemma {:induction false} ThisHead(args: DeltaArgs, y0: seq<Scalar>, y1: seq<Scalar>, done: nat)
    requires |y0| == |y1| == args.ConvDim() && done < args.keyHeads
    ensures Offset(done, args.keyDim) + args.keyDim <= args.KeySize()
    ensures
      var at := Offset(done, args.keyDim);
      var y2 := Splice(Splice(y1, at, QueryOf(args, y0, done)), args.KeySize() + at, KeyOf(args, y0, done));
      && OneNormalized(args, y0, y2, done)
      && y2[args.KeySize() + args.KeySize()..] == y1[args.KeySize() + args.KeySize()..]
  {
    hide Splice, QueryOf, KeyOf;
    RowInside(args.keyHeads, args.keyDim, done);
    var ks, at := args.KeySize(), Offset(done, args.keyDim);
    TwoSplicesPut(y1, at, ks + at, QueryOf(args, y0, done), KeyOf(args, y0, done), ks + ks);
  }

  lemma {:induction false} NormalizeStep(args: DeltaArgs, y0: seq<Scalar>, y1: seq<Scalar>, done: nat)
    requires done < args.keyHeads && HeadsNormalized(args, y0, y1, done)
    ensures Offset(done, args.keyDim) + args.keyDim <= args.KeySize()
    ensures HeadUntouched(args, y0, y1, done)
    ensures
      var at := Offset(done, args.keyDim);
      HeadsNormalized(args, y0,
        Splice(Splice(y1, at, QueryOf(args, y0, done)), args.KeySize() + at, KeyOf(args, y0, done)), done + 1)
  {
    hide Splice, Offset, QueryOf, KeyOf;
    ThisHead(args, y0, y1, done);
    var at := Offset(done, args.keyDim);
    var y2 := Splice(Splice(y1, at, QueryOf(args, y0, done)), args.KeySize() + at, KeyOf(args, y0, done));
    forall h | 0 <= h < args.keyHeads && h != done
      ensures HeadUntouched(args, y1, y2, h)
    {
      OtherHead(args, y1, QueryOf(args, y0, done), KeyOf(args, y0, done), done, h);
    }
    forall h | 0 <= h < done
      ensures OneNormalized(args, y0, y2, h)
    {
      assert OneNormalized(args, y0, y1, h) && HeadUntouched(args, y1, y2, h);
    }
    forall h | done < h < args.keyHeads
      ensures HeadUntouched(args, y0, y2, h)
    {
      assert HeadUntouched(args, y0, y1, h) && HeadUntouched(args, y1, y2, h);
    }
  }

  method NormalizeHead(args: DeltaArgs, convolved: array<Scalar>, head: nat, ghost y0: seq<Scalar>)
    requires head < args.keyHeads && convolved.Length == |y0| == args.ConvDim()
    requires Offset(head, args.keyDim) + args.keyDim <= args.KeySize()
    requires HeadUntouched(args, y0, convolved[..], head)
    modifies convolved
    ensures convolved[..] == Splice(Splice(old(convolved[..]), Offset(head, args.keyDim), QueryOf(args, y0, head)),
                                    args.KeySize() + Offset(head, args.keyDim), KeyOf(args, y0, head))
  {
    hide Splice, Offset, L2Row, ScaleRow, DotD;
    var dim, at := args.keyDim, Offset(head, args.keyDim);
    ghost var y := convolved[..];
    ghost var q := y[at..at + dim];
    ghost var k := y[args.KeySize() + at..args.KeySize() + at + dim];
    NormalizeHeadSplices(y, at, args.KeySize() + at, q, k, QueryScale(args));
    L2Normalize(convolved, at, dim, L2Epsilon);
    L2Normalize(convolved, args.KeySize() + at, dim, L2Epsilon);
    ScaleSpan(convolved, at, dim, QueryScale(args));
  }

  lemma {:induction false} NormalizeHeadSplices(y: seq<Scalar>, at: nat, kAt: nat, q: seq<Scalar>, k: seq<Scalar>, scale: Scalar)
    requires at + |q| <= kAt && kAt + |k| <= |y|
    requires q == y[at..at + |q|] && k == y[kAt..kAt + |k|]
    ensures
      var y1 := Splice(y, at, L2Row(q, L2Epsilon));
      var y2 := Splice(y1, kAt, L2Row(k, L2Epsilon));
      && y1[kAt..kAt + |k|] == k
      && y2[at..at + |q|] == L2Row(q, L2Epsilon)
      && Splice(y2, at, ScaleRow(L2Row(q, L2Epsilon), scale))
         == Splice(Splice(y, at, ScaleRow(L2Row(q, L2Epsilon), scale)), kAt, L2Row(k, L2Epsilon))
  {
    hide Splice, L2Row, ScaleRow;
    var l, kl := L2Row(q, L2Epsilon), L2Row(k, L2Epsilon);
    var y1 := Splice(y, at, l);
    SpliceKeeps(y, at, l, kAt, kAt + |k|);
    SpliceKeeps(y1, kAt, kl, at, at + |q|);
    SplicePut(y, at, l);
    SpliceApart(y1, at, ScaleRow(l, scale), kAt, kl);
    SpliceOver(y, at, l, ScaleRow(l, scale));
  }

  lemma {:induction false} SpliceApart<T>(s: seq<T>, at: nat, a: seq<T>, bAt: nat, b: seq<T>)
    requires at + |a| <= bAt && bAt + |b| <= |s|
    ensures Splice(Splice(s, bAt, b), at, a) == Splice(Splice(s, at, a), bAt, b)
  {
  }

  method NormalizeHeads(args: DeltaArgs, convolved: array<Scalar>)
    requires convolved.Length == args.ConvDim()
    modifies convolved
    ensures HeadsNormalized(args, old(convolved[..]), convolved[..], args.keyHeads)
  {
    hide *;
    ghost var y0 := convolved[..];
    NothingNormalized(args, y0);
    for head := 0 to args.keyHeads
      invariant HeadsNormalized(args, y0, convolved[..], head)
    {
      NormalizeStep(args, y0, convolved[..], head);
      NormalizeHead(args, convolved, head, y0);
    }
  }

  lemma {:induction false} NothingNormalized(args: DeltaArgs, y0: seq<Scalar>)
    requires |y0| == args.ConvDim()
    ensures HeadsNormalized(args, y0, y0, 0)
  {
  }

  // ----- one value head, inside the flat recurrent buffer -----

  lemma NestedProduct(head: nat, keyDim: nat, valueDim: nat, key: nat)
    ensures (head * keyDim + key) * valueDim == head * (keyDim * valueDim) + key * valueDim
  {
    assert (head * keyDim + key) * valueDim == head * keyDim * valueDim + key * valueDim;
  }

  /** The source indexes cell (head, key, value) as `(head * key_dim + key) * value_dim + value`:
      the stretch of one head starts at `head` times the size of a head. */
  lemma {:induction false} RecurrentIndex(keyDim: nat, valueDim: nat, head: nat, key: nat, value: nat)
    ensures (head * keyDim + key) * valueDim + value
            == Offset(head, Offset(keyDim, valueDim)) + Offset(key, valueDim) + value
  {
    hide Offset;
    OffsetIsProduct(keyDim, valueDim);
    OffsetIsProduct(head, keyDim * valueDim);
    OffsetIsProduct(key, valueDim);
    NestedProduct(head, keyDim, valueDim, key);
  }

  method DecayHead(recurrent: array<Scalar>, at: nat, keyDim: nat, valueDim: nat, decay: Scalar, ghost m: seq<seq<Scalar>>)
    requires IsMatrix(m, keyDim, valueDim) && at + Offset(keyDim, valueDim) <= recurrent.Length
    requires recurrent[..] == Splice(recurrent[..], at, Flatten(m, valueDim))
    modifies recurrent
    ensures recurrent[..] == Splice(old(recurrent[..]), at, Flatten(Decayed(m, decay), valueDim))
  {
    hide ScaleRow, Splice, Offset, Flatten;
    ghost var was := recurrent[..];
    ghost var now := m;
    for r := 0 to keyDim
      invariant IsMatrix(now, keyDim, valueDim)
      invariant forall k :: 0 <= k < keyDim ==> now[k] == if k < r then Decayed(m, decay)[k] else m[k]
      invariant recurrent[..] == Splice(was, at, Flatten(now, valueDim))
    {
      DecayRow(recurrent, at, valueDim, decay, r, was, now);
      now := now[r := ScaleRow(now[r], decay)];
    }
    assert now == Decayed(m, decay);
  }

  method DecayRow(recurrent: array<Scalar>, at: nat, valueDim: nat, decay: Scalar, r: nat,
                  ghost was: seq<Scalar>, ghost now: seq<seq<Scalar>>)
    requires r < |now| && IsMatrix(now, |now|, valueDim) && at + Offset(|now|, valueDim) <= |was|
    requires recurrent[..] == Splice(was, at, Flatten(now, valueDim))
    modifies recurrent
    ensures recurrent[..] == Splice(was, at, Flatten(now[r := ScaleRow(now[r], decay)], valueDim))
  {
    hide ScaleRow, Splice, Offset, Flatten;
    assert recurrent.Length == |was|;
    SpliceFlatten(was, at, now, valueDim, r, ScaleRow(now[r], decay));
    ScaleSpan(recurrent, at + Offset(r, valueDim), valueDim, decay);
  }

  method WriteRow(recurrent: array<Scalar>, at: nat, key: Scalar, delta: seq<Scalar>, r: nat,
                  ghost was: seq<Scalar>, ghost now: seq<seq<Scalar>>)
    requires r < |now| && IsMatrix(now, |now|, |delta|) && at + Offset(|now|, |delta|) <= |was|
    requires recurrent[..] == Splice(was, at, Flatten(now, |delta|))
    modifies recurrent
    ensures recurrent[..] == Splice(was, at, Flatten(now[r := AddScaled(now[r], key, delta)], |delta|))
  {
    hide AddScaled, Splice, Offset, Flatten;
    assert recurrent.Length == |was|;
    SpliceFlatten(was, at, now, |delta|, r, AddScaled(now[r], key, delta));
    AddWeighted(key, delta, recurrent, at + Offset(r, |delta|));
  }

  method WriteHead(recurrent: array<Scalar>, at: nat, key: seq<Scalar>, delta: seq<Scalar>,
                   ghost was: seq<Scalar>, ghost m: seq<seq<Scalar>>)
    requires IsMatrix(m, |key|, |delta|) && at + Offset(|key|, |delta|) <= |was|
    requires recurrent[..] == Splice(was, at, Flatten(m, |delta|))
    modifies recurrent
    ensures recurrent[..] == Splice(was, at, Flatten(Write(m, key, delta), |delta|))
  {
    hide AddScaled, Splice, Offset, Flatten;
    ghost var now := m;
    for r := 0 to |key|
      invariant IsMatrix(now, |key|, |delta|)
      invariant forall k :: 0 <= k < |key| ==> now[k] == if k < r then Write(m, key, delta)[k] else m[k]
      invariant recurrent[..] == Splice(was, at, Flatten(now, |delta|))
    {
      WriteRow(recurrent, at, key[r], delta, r, was, now);
      now := now[r := AddScaled(now[r], key[r], delta)];
    }
    assert now == Write(m, key, delta);
  }

  lemma {:induction false} SpliceCell<T>(was: seq<T>, at: nat, m: seq<seq<T>>, w: nat, r: nat, c: nat)
    requires forall k :: 0 <= k < |m| ==> |m[k]| == w
    requires r < |m| && c < w && at + Offset(|m|, w) <= |was|
    ensures at + Offset(r, w) + c < |was|
    ensures Splice(was, at, Flatten(m, w))[at + Offset(r, w) + c] == m[r][c]
  {
    hide Splice, Flatten;
    SpliceFlatten(was, at, m, w, r, m[r]);
    var s := Splice(was, at, Flatten(m, w));
    assert s[at + Offset(r, w)..at + Offset(r, w) + w][c] == s[at + Offset(r, w) + c];
  }

  method RecallCell(recurrent: array<Scalar>, at: nat, key: seq<Scalar>, w: nat, c: nat,
                    ghost was: seq<Scalar>, ghost m: seq<seq<Scalar>>)
    returns (value: Scalar)
    requires IsMatrix(m, |key|, w) && c < w && at + Offset(|key|, w) <= |was|
    requires recurrent[..] == Splice(was, at, Flatten(m, w))
    ensures value == Recall(m, key, w)[c]
  {
    hide Splice, Flatten, Offset;
    ghost var column := Column(m, w, c);
    assert recurrent.Length == |was|;
    var sum := Zero;
    for r := 0 to |key|
      invariant sum == DotD(column, key, r)
    {
      SpliceCell(was, at, m, w, r, c);
      assert recurrent[..][at + Offset(r, w) + c] == column[r];
      sum := AddD(sum, MulD(recurrent[at + Offset(r, w) + c], key[r]));
    }
    value := ToFloat(sum);
  }

  method ComputeCorrection(recurrent: array<Scalar>, at: nat, key: seq<Scalar>, v: seq<Scalar>, beta: Scalar,
                           ghost was: seq<Scalar>, ghost m: seq<seq<Scalar>>)
    returns (delta: seq<Scalar>)
    requires IsMatrix(m, |key|, |v|) && at + Offset(|key|, |v|) <= |was|
    requires recurrent[..] == Splice(was, at, Flatten(m, |v|))
    ensures delta == Correction(v, Recall(m, key, |v|), beta)
  {
    hide Splice, Flatten, Offset, Recall;
    ghost var target := Correction(v, Recall(m, key, |v|), beta);
    var buffer := new Scalar[|v|](_ => Zero);
    for c := 0 to |v|
      invariant recurrent[..] == Splice(was, at, Flatten(m, |v|))
      invariant forall k :: 0 <= k < c ==> buffer[k] == target[k]
    {
      var kvMem := RecallCell(recurrent, at, key, |v|, c, was, m);
      buffer[c] := Mul(Sub(v[c], kvMem), beta);
    }
    delta := buffer[..];
  }

  method ReadHead(recurrent: array<Scalar>, at: nat, q: seq<Scalar>, w: nat, raw: array<Scalar>, rawAt: nat,
                  ghost was: seq<Scalar>, ghost m: seq<seq<Scalar>>)
    requires IsMatrix(m, |q|, w) && at + Offset(|q|, w) <= |was| && recurrent != raw
    requires recurrent[..] == Splice(was, at, Flatten(m, w)) && rawAt + w <= raw.Length
    modifies raw
    ensures raw[..] == Splice(old(raw[..]), rawAt, Recall(m, q, w))
  {
    hide Splice, Flatten, Offset, Recall;
    ghost var target, rawWas := Recall(m, q, w), raw[..];
    for c := 0 to w
      invariant recurrent[..] == Splice(was, at, Flatten(m, w))
      invariant forall k :: 0 <= k < raw.Length ==>
        raw[k] == if rawAt <= k < rawAt + c then target[k - rawAt] else rawWas[k]
    {
      raw[rawAt + c] := RecallCell(recurrent, at, q, w, c, was, m);
    }
    ByCells(raw[..], rawWas, rawAt, target);
  }

  /** Decay, correct, write and read one head; every other head's stretch is left alone. */
  method UpdateHeadSpan(recurrent: array<Scalar>, at: nat, q: seq<Scalar>, key: seq<Scalar>, v: seq<Scalar>,
                        beta: Scalar, decay: Scalar, raw: array<Scalar>, rawAt: nat)
    requires |q| == |key| && at + Offset(|key|, |v|) <= recurrent.Length
    requires recurrent != raw && rawAt + |v| <= raw.Length
    modifies recurrent, raw
    ensures
      var m := Rows(old(recurrent[at..at + Offset(|key|, |v|)]), |key|, |v|);
      && recurrent[..] == Splice(old(recurrent[..]), at, Flatten(UpdateHead(m, key, v, beta, decay), |v|))
      && raw[..] == Splice(old(raw[..]), rawAt, Recall(UpdateHead(m, key, v, beta, decay), q, |v|))
  {
    hide Splice, Flatten, Offset, Recall, Decayed, Write, Correction, Rows;
    ghost var was := recurrent[..];
    ghost var m := Rows(was[at..at + Offset(|key|, |v|)], |key|, |v|);
    FlattenRows(was[at..at + Offset(|key|, |v|)], |key|, |v|);
    JoinSplice(was, was, at, Flatten(m, |v|));
    DecayHead(recurrent, at, |key|, |v|, decay, m);
    ghost var d := Decayed(m, decay);
    var delta := ComputeCorrection(recurrent, at, key, v, beta, was, d);
    WriteHead(recurrent, at, key, delta, was, d);
    ReadHead(recurrent, at, q, |v|, raw, rawAt, was, Write(d, key, delta));
  }
}
