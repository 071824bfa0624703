/** Whole runs of the delta mixer: chunking, causality, and what the shift register holds. */
module DeltaRuns {
  import opened Matrix
  import opened Scalars
  import opened DeltaNet

  /** Prefilling `xs ++ ys` leaves the state that prefilling `xs` and then `ys` leaves. */
  lemma {:induction false} RunMemoryAppend(args: DeltaArgs, weights: DeltaWeights, memory: Memory,
                                           xs: seq<seq<Scalar>>, ys: seq<seq<Scalar>>)
    requires args.Valid() && FitsDelta(args, weights) && Fits(args, memory)
    requires PackedRows(args, xs) && PackedRows(args, ys)
    ensures RunMemory(args, weights, memory, xs + ys)
            == RunMemory(args, weights, RunMemory(args, weights, memory, xs), ys)
    decreases |ys|
  {
    hide StepMemory, FitsDelta, DeltaArgs.Valid, Fits;
    if |ys| == 0 {
      assert xs + ys == xs;
    } else {
      var front := ys[..|ys| - 1];
      assert (xs + ys)[..|xs + ys| - 1] == xs + front;
      RunMemoryAppend(args, weights, memory, xs, front);
    }
  }

  /** ... and produces the same output rows. */
  lemma {:induction false} RunRowsAppend(args: DeltaArgs, weights: DeltaWeights, memory: Memory,
                                         xs: seq<seq<Scalar>>, ys: seq<seq<Scalar>>)
    requires args.Valid() && FitsDelta(args, weights) && Fits(args, memory)
    requires PackedRows(args, xs) && PackedRows(args, ys)
    ensures RunRows(args, weights, memory, xs + ys)
            == RunRows(args, weights, memory, xs)
               + RunRows(args, weights, RunMemory(args, weights, memory, xs), ys)
  {
    hide StepRow, StepMemory, FitsDelta, DeltaArgs.Valid, Fits;
    var whole := RunRows(args, weights, memory, xs + ys);
    var split := RunRows(args, weights, memory, xs)
                 + RunRows(args, weights, RunMemory(args, weights, memory, xs), ys);
    forall t | 0 <= t < |xs + ys|
      ensures whole[t] == split[t]
    {
      if t < |xs| {
        assert (xs + ys)[..t] == xs[..t];
      } else {
        assert (xs + ys)[..t] == xs + ys[..t - |xs|];
        RunMemoryAppend(args, weights, memory, xs, ys[..t - |xs|]);
      }
    }
  }

  /** The raw inputs a channel has seen. */
  function Channel(xs: seq<seq<Scalar>>, c: nat): (inputs: seq<Scalar>)
    requires forall t :: 0 <= t < |xs| ==> c < |xs[t]|
    ensures |inputs| == |xs|
  {
    seq(|xs|, t requires 0 <= t < |xs| => xs[t][c])
  }

  function Last<T>(s: seq<T>, n: nat): (tail: seq<T>)
    requires n <= |s|
    ensures |tail| == n
  {
    s[|s| - n..]
  }

  /** The shift register holds exactly the last `convWidth - 1` elements of what came before. */
  lemma {:induction false} HistoryIsTail(args: DeltaArgs, weights: DeltaWeights, memory: Memory, xs: seq<seq<Scalar>>, c: nat)
    requires args.Valid() && FitsDelta(args, weights) && Fits(args, memory) && PackedRows(args, xs)
    requires c < args.ConvDim()
    ensures RunMemory(args, weights, memory, xs).histories[c]
            == Last(memory.histories[c] + Channel(xs, c), args.History())
    decreases |xs|
  {
    var before := memory.histories[c];
    if |xs| == 0 {
      assert before + Channel(xs, c) == before;
    } else {
      var front, x := xs[..|xs| - 1], xs[|xs| - 1];
      HistoryIsTail(args, weights, memory, front, c);
      assert before + Channel(xs, c) == (before + Channel(front, c)) + [x[c]];
      ShiftIsTail(before + Channel(front, c), args.History(), x[c]);
    }
  }

  lemma {:induction false} ShiftIsTail(s: seq<Scalar>, n: nat, x: Scalar)
    requires n <= |s|
    ensures Shift(Last(s, n), x) == Last(s + [x], n)
  {
  }

  /** A direct causal convolution: output `t` meets the window of inputs that ends at `t`. */
  function SlidingConvolution(signal: seq<Scalar>, taps: seq<Scalar>, t: nat): Scalar
    requires 0 < |taps| && t + |taps| <= |signal|
  {
    var n := |taps| - 1;
    Silu(DotF(Mul(signal[t + n], taps[n]), signal[t..t + n], taps, n))
  }

  /** The shift-register form computes the sliding convolution of initial history and inputs. */
  lemma {:induction false} ConvolutionIsSliding(args: DeltaArgs, weights: DeltaWeights, memory: Memory,
                                                xs: seq<seq<Scalar>>, t: nat, c: nat)
    requires args.Valid() && FitsDelta(args, weights) && Fits(args, memory) && PackedRows(args, xs)
    requires t < |xs| && c < args.ConvDim()
    ensures ConvolveAll(args, weights, RunMemory(args, weights, memory, xs[..t]).histories, xs[t])[c]
            == SlidingConvolution(memory.histories[c] + Channel(xs, c),
                                  Row(weights.conv, args.ConvDim(), args.convWidth, c), t)
  {
    HistoryIsTail(args, weights, memory, xs[..t], c);
    hide RunMemory, StepMemory;
    var n := args.History();
    var signal := memory.histories[c] + Channel(xs, c);
    assert memory.histories[c] + Channel(xs[..t], c) == signal[..n + t];
    assert signal[..n + t][t..] == signal[t..t + n];
  }

  /** Rows already produced do not depend on tokens still to come. */
  lemma {:induction false} RunRowsCausal(args: DeltaArgs, weights: DeltaWeights, memory: Memory, xs: seq<seq<Scalar>>, p: nat)
    requires args.Valid() && FitsDelta(args, weights) && Fits(args, memory) && PackedRows(args, xs)
    requires p <= |xs|
    ensures RunRows(args, weights, memory, xs[..p]) == RunRows(args, weights, memory, xs)[..p]
  {
    hide StepRow, RunMemory;
    assert xs == xs[..p] + xs[p..];
    RunRowsAppend(args, weights, memory, xs[..p], xs[p..]);
  }
}
