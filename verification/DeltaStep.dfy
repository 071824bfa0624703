/** The state object of the delta mixer, and its step and prefill over it. */
module DeltaStep {
  import opened Matrix
  import opened Scalars
  import opened Kernels
  import opened Attention
  import opened DeltaNet
  import opened DeltaLoops

  /** What two flat buffers of the right sizes hold. */
  function HeadsOf(args: DeltaArgs, recurrent: seq<Scalar>): (heads: seq<seq<seq<Scalar>>>)
    requires |recurrent| == Offset(args.valueHeads, args.HeadSize())
    ensures |heads| == args.valueHeads
    ensures forall h :: 0 <= h < |heads| ==> IsMatrix(heads[h], args.keyDim, args.valueDim)
  {
    seq(args.valueHeads, h requires 0 <= h < args.valueHeads =>
      Rows(Row(recurrent, args.valueHeads, args.HeadSize(), h), args.keyDim, args.valueDim))
  }

  class GatedDeltaState {
    var convolution: array<Scalar>
    var recurrent: array<Scalar>

    predicate Valid(args: DeltaArgs)
      reads this
    {
      && args.Valid()
      && convolution != recurrent
      && convolution.Length == Offset(args.ConvDim(), args.History())
      && recurrent.Length == Offset(args.valueHeads, args.HeadSize())
    }

    ghost function Contents(args: DeltaArgs): (memory: Memory)
      requires Valid(args)
      reads this, convolution, recurrent
      ensures Fits(args, memory)
    {
      Memory(Rows(convolution[..], args.ConvDim(), args.History()), HeadsOf(args, recurrent[..]))
    }

    constructor (args: DeltaArgs)
      requires args.Valid()
      ensures Valid(args) && fresh(convolution) && fresh(recurrent)
      ensures Contents(args) == ZeroMemory(args)
    {
      convolution := new Scalar[Offset(args.ConvDim(), args.History())](_ => Zero);
      recurrent := new Scalar[Offset(args.valueHeads, args.HeadSize())](_ => Zero);
      new;
      ZeroContents(args, convolution[..], recurrent[..]);
    }
  }

  lemma {:induction false} ZeroContents(args: DeltaArgs, convolution: seq<Scalar>, recurrent: seq<Scalar>)
    requires args.Valid()
    requires |convolution| == Offset(args.ConvDim(), args.History())
    requires |recurrent| == Offset(args.valueHeads, args.HeadSize())
    requires forall i :: 0 <= i < |convolution| ==> convolution[i] == Zero
    requires forall i :: 0 <= i < |recurrent| ==> recurrent[i] == Zero
    ensures Memory(Rows(convolution, args.ConvDim(), args.History()), HeadsOf(args, recurrent)) == ZeroMemory(args)
  {
    ZeroMatrix(convolution, args.ConvDim(), args.History());
    forall h | 0 <= h < args.valueHeads
      ensures HeadsOf(args, recurrent)[h] == seq(args.keyDim, r => seq(args.valueDim, c => Zero))
    {
      RowInside(args.valueHeads, args.HeadSize(), h);
      ZeroMatrix(Row(recurrent, args.valueHeads, args.HeadSize(), h), args.keyDim, args.valueDim);
    }
    assert HeadsOf(args, recurrent) == ZeroMemory(args).heads;
  }

  // ----- updating every value head -----

  method UpdateNth(args: DeltaArgs, weights: DeltaWeights, x: seq<Scalar>, y1: seq<Scalar>, h: nat,
                   recurrent: array<Scalar>, raw: array<Scalar>, ghost y0: seq<Scalar>)
    requires args.Valid() && FitsDelta(args, weights) && h < args.valueHeads && |x| == args.Stride()
    requires HeadsNormalized(args, y0, y1, args.keyHeads)
    requires recurrent != raw && raw.Length == Offset(args.valueHeads, args.valueDim)
    requires recurrent.Length == Offset(args.valueHeads, args.HeadSize())
    modifies recurrent, raw
    ensures
      var m := Rows(Row(old(recurrent[..]), args.valueHeads, args.HeadSize(), h), args.keyDim, args.valueDim);
      var n := StepHead(args, weights, m, x, y0, h);
      && Rows(recurrent[..], args.valueHeads, args.HeadSize())
         == old(Rows(recurrent[..], args.valueHeads, args.HeadSize()))[h := Flatten(n, args.valueDim)]
      && Rows(raw[..], args.valueHeads, args.valueDim)
         == old(Rows(raw[..], args.valueHeads, args.valueDim))
            [h := Recall(n, QueryOf(args, y0, KeyHead(args, h)), args.valueDim)]
  {
    hide *;
    HeadStretches(args, weights, x, y0, y1, h, recurrent[..]);
    var dim, w := args.keyDim, args.valueDim;
    var keyAt, valueAt := Offset(KeyHead(args, h), dim), args.KeySize() + args.KeySize() + Offset(h, w);
    var q, k, v := y1[keyAt..keyAt + dim], y1[args.KeySize() + keyAt..args.KeySize() + keyAt + dim], y1[valueAt..valueAt + w];
    ghost var m := Rows(Row(recurrent[..], args.valueHeads, args.HeadSize(), h), dim, w);
    ghost var n := StepHead(args, weights, m, x, y0, h);
    SetRow(recurrent[..], args.valueHeads, args.HeadSize(), h, Flatten(n, w));
    SetRow(raw[..], args.valueHeads, w, h, Recall(n, q, w));
    UpdateHeadSpan(recurrent, Offset(h, args.HeadSize()), q, k, v, Beta(args, x, h), Decay(args, weights, x, h), raw, Offset(h, w));
  }

  lemma {:induction false} HeadStretches(args: DeltaArgs, weights: DeltaWeights, x: seq<Scalar>, y0: seq<Scalar>, y1: seq<Scalar>,
                                         h: nat, recurrent: seq<Scalar>)
    requires args.Valid() && FitsDelta(args, weights) && h < args.valueHeads && |x| == args.Stride()
    requires HeadsNormalized(args, y0, y1, args.keyHeads)
    requires |recurrent| == Offset(args.valueHeads, args.HeadSize())
    ensures
      var dim, w := args.keyDim, args.valueDim;
      var keyAt, valueAt := Offset(KeyHead(args, h), dim), args.KeySize() + args.KeySize() + Offset(h, w);
      var at := Offset(h, args.HeadSize());
      && |y0| == args.ConvDim() && KeyHead(args, h) < args.keyHeads
      && args.HeadSize() == Offset(dim, w)
      && args.KeySize() + keyAt + dim <= |y1| && valueAt + w <= |y1|
      && y1[keyAt..keyAt + dim] == QueryOf(args, y0, KeyHead(args, h))
      && y1[args.KeySize() + keyAt..args.KeySize() + keyAt + dim] == KeyOf(args, y0, KeyHead(args, h))
      && y1[valueAt..valueAt + w] == ValueOf(args, y0, h)
      && at + Offset(dim, w) <= |recurrent|
      && recurrent[at..at + Offset(dim, w)] == Row(recurrent, args.valueHeads, args.HeadSize(), h)
    ensures
      var m := Rows(Row(recurrent, args.valueHeads, args.HeadSize(), h), args.keyDim, args.valueDim);
      && IsMatrix(m, args.keyDim, args.valueDim)
      && StepHead(args, weights, m, x, y0, h)
         == UpdateHead(m, KeyOf(args, y0, KeyHead(args, h)), ValueOf(args, y0, h), Beta(args, x, h), Decay(args, weights, x, h))
      && IsMatrix(StepHead(args, weights, m, x, y0, h), args.keyDim, args.valueDim)
      && |StepHead(args, weights, m, x, y0, h)| == args.keyDim
      && forall r :: 0 <= r < args.keyDim ==> |StepHead(args, weights, m, x, y0, h)[r]| == args.valueDim
  {
    hide QueryOf, KeyOf, UpdateHead, Beta, Decay, Rows, Offset;
    var key := KeyHead(args, h);
    assert OneNormalized(args, y0, y1, key);
    RowInside(args.keyHeads, args.keyDim, key);
    RowInside(args.valueHeads, args.valueDim, h);
    RowInside(args.valueHeads, args.HeadSize(), h);
    SameTail(y0, y1, args.KeySize() + args.KeySize(), Offset(h, args.valueDim), args.valueDim);
  }

  lemma {:induction false} SameTail<T>(a: seq<T>, b: seq<T>, tail: nat, at: nat, n: nat)
    requires |a| == |b| && tail + at + n <= |a| && a[tail..] == b[tail..]
    ensures a[tail + at..tail + at + n] == b[tail + at..tail + at + n]
  {
    SubSlice(a, tail, |a| - tail, at, n);
    SubSlice(b, tail, |b| - tail, at, n);
    assert a[tail..|a|] == a[tail..] && b[tail..|b|] == b[tail..];
  }

  /** Head `h` of both buffers once it has been updated. */
  ghost predicate HeadDone(args: DeltaArgs, weights: DeltaWeights, x: seq<Scalar>, y0: seq<Scalar>,
                           heads: seq<seq<seq<Scalar>>>, recurrent: seq<seq<Scalar>>, raw: seq<seq<Scalar>>, h: nat)
    requires args.Valid() && FitsDelta(args, weights) && h < args.valueHeads
    requires |x| == args.Stride() && |y0| == args.ConvDim()
    requires |heads| == |recurrent| == |raw| == args.valueHeads
    requires IsMatrix(heads[h], args.keyDim, args.valueDim)
  {
    var n := StepHead(args, weights, heads[h], x, y0, h);
    && recurrent[h] == Flatten(n, args.valueDim)
    && raw[h] == Recall(n, QueryOf(args, y0, KeyHead(args, h)), args.valueDim)
  }

  method UpdateHeads(args: DeltaArgs, weights: DeltaWeights, x: seq<Scalar>, y1: seq<Scalar>,
                     recurrent: array<Scalar>, raw: array<Scalar>, ghost y0: seq<Scalar>)
    requires args.Valid() && FitsDelta(args, weights) && |x| == args.Stride()
    requires HeadsNormalized(args, y0, y1, args.keyHeads)
    requires recurrent != raw && raw.Length == Offset(args.valueHeads, args.valueDim)
    requires recurrent.Length == Offset(args.valueHeads, args.HeadSize())
    modifies recurrent, raw
    ensures HeadsOf(args, recurrent[..]) == StepHeads(args, weights, HeadsOf(args, old(recurrent[..])), x, y0)
    ensures Rows(raw[..], args.valueHeads, args.valueDim)
            == ReadHeads(args, StepHeads(args, weights, HeadsOf(args, old(recurrent[..])), x, y0), y0)
  {
    hide StepHead, QueryOf, Recall, Flatten, Rows, Offset, HeadDone, HeadsOf, StepHeads, ReadHeads;
    ghost var heads := HeadsOf(args, recurrent[..]);
    ghost var start := Rows(recurrent[..], args.valueHeads, args.HeadSize());
    ghost var rs, os := start, Rows(raw[..], args.valueHeads, args.valueDim);
    HeadsAre(args, recurrent[..]);
    for h := 0 to args.valueHeads
      invariant rs == Rows(recurrent[..], args.valueHeads, args.HeadSize())
      invariant os == Rows(raw[..], args.valueHeads, args.valueDim)
      invariant forall k :: 0 <= k < h ==> HeadDone(args, weights, x, y0, heads, rs, os, k)
      invariant forall k :: h <= k < args.valueHeads ==> rs[k] == start[k]
    {
      assert Row(recurrent[..], args.valueHeads, args.HeadSize(), h) == start[h];
      UpdateNth(args, weights, x, y1, h, recurrent, raw, y0);
      ghost var rs', os' := Rows(recurrent[..], args.valueHeads, args.HeadSize()), Rows(raw[..], args.valueHeads, args.valueDim);
      HeadDoneStep(args, weights, x, y0, heads, rs, os, rs', os', h);
      rs, os := rs', os';
    }
    HeadsFinish(args, weights, x, y0, heads, recurrent[..], os);
  }

  lemma {:induction false} HeadsAre(args: DeltaArgs, recurrent: seq<Scalar>)
    requires |recurrent| == Offset(args.valueHeads, args.HeadSize())
    ensures forall h :: 0 <= h < args.valueHeads ==>
      HeadsOf(args, recurrent)[h]
      == Rows(Rows(recurrent, args.valueHeads, args.HeadSize())[h], args.keyDim, args.valueDim)
  {
  }

  lemma {:induction false} HeadDoneStep(args: DeltaArgs, weights: DeltaWeights, x: seq<Scalar>, y0: seq<Scalar>,
      heads: seq<seq<seq<Scalar>>>, rs: seq<seq<Scalar>>, os: seq<seq<Scalar>>,
      rs': seq<seq<Scalar>>, os': seq<seq<Scalar>>, h: nat)
    requires args.Valid() && FitsDelta(args, weights) && h < args.valueHeads
    requires |x| == args.Stride() && |y0| == args.ConvDim()
    requires |heads| == |rs| == |os| == args.valueHeads
    requires forall k :: 0 <= k < |heads| ==> IsMatrix(heads[k], args.keyDim, args.valueDim)
    requires forall k :: 0 <= k < h ==> HeadDone(args, weights, x, y0, heads, rs, os, k)
    requires rs' == rs[h := Flatten(StepHead(args, weights, heads[h], x, y0, h), args.valueDim)]
    requires os' == os[h := Recall(StepHead(args, weights, heads[h], x, y0, h),
                                   QueryOf(args, y0, KeyHead(args, h)), args.valueDim)]
    ensures forall k :: 0 <= k <= h ==> HeadDone(args, weights, x, y0, heads, rs', os', k)
  {
    hide StepHead, QueryOf, Recall, Flatten;
    forall k | 0 <= k <= h
      ensures HeadDone(args, weights, x, y0, heads, rs', os', k)
    {
      if k < h {
        assert HeadDone(args, weights, x, y0, heads, rs, os, k);
      }
    }
  }

  lemma {:induction false} HeadsFinish(args: DeltaArgs, weights: DeltaWeights, x: seq<Scalar>, y0: seq<Scalar>,
      heads: seq<seq<seq<Scalar>>>, recurrent: seq<Scalar>, os: seq<seq<Scalar>>)
    requires args.Valid() && FitsDelta(args, weights)
    requires |x| == args.Stride() && |y0| == args.ConvDim()
    requires |recurrent| == Offset(args.valueHeads, args.HeadSize())
    requires |heads| == |os| == args.valueHeads
    requires forall k :: 0 <= k < |heads| ==> IsMatrix(heads[k], args.keyDim, args.valueDim)
    requires forall k :: 0 <= k < args.valueHeads ==>
      HeadDone(args, weights, x, y0, heads, Rows(recurrent, args.valueHeads, args.HeadSize()), os, k)
    ensures HeadsOf(args, recurrent) == StepHeads(args, weights, heads, x, y0)
    ensures os == ReadHeads(args, StepHeads(args, weights, heads, x, y0), y0)
  {
    hide StepHead, QueryOf, Recall, Flatten, Rows;
    var rs := Rows(recurrent, args.valueHeads, args.HeadSize());
    var next := StepHeads(args, weights, heads, x, y0);
    HeadsAre(args, recurrent);
    forall h | 0 <= h < args.valueHeads
      ensures HeadsOf(args, recurrent)[h] == next[h]
      ensures os[h] == ReadHeads(args, next, y0)[h]
    {
      assert HeadDone(args, weights, x, y0, heads, rs, os, h);
      RowsFlatten(next[h], args.valueDim);
    }
  }

  // ----- output norm and gate -----

  method NormInto(raw: array<Scalar>, rows: nat, weight: seq<Scalar>, epsilon: Scalar, output: array<Scalar>, at: nat)
    requires raw != output && raw.Length == Offset(rows, |weight|) && at + raw.Length <= output.Length
    modifies output
    ensures output[..] == Splice(old(output[..]), at,
              Flatten(RmsRows(Rows(raw[..], rows, |weight|), |weight|, weight, epsilon), |weight|))
  {
    hide Splice, Flatten, Offset, RmsRow, Rows;
    var w := |weight|;
    ghost var was, values := output[..], raw[..];
    ghost var source := Rows(values, rows, w);
    ghost var target := RmsRows(source, w, weight, epsilon);
    ghost var now := Rows(was[at..at + raw.Length], rows, w);
    FlattenRows(was[at..at + raw.Length], rows, w);
    JoinSplice(was, was, at, was[at..at + raw.Length]);
    for r := 0 to rows
      invariant raw[..] == values
      invariant |now| == rows && forall k :: 0 <= k < rows ==> |now[k]| == w
      invariant forall k :: 0 <= k < r ==> now[k] == target[k]
      invariant output[..] == Splice(was, at, Flatten(now, w))
    {
      NormIntoRow(raw, rows, weight, epsilon, output, at, r, was, now);
      now := now[r := target[r]];
    }
    assert now == target;
  }

  method NormIntoRow(raw: array<Scalar>, rows: nat, weight: seq<Scalar>, epsilon: Scalar, output: array<Scalar>, at: nat, r: nat,
                     ghost was: seq<Scalar>, ghost now: seq<seq<Scalar>>)
    requires raw != output && raw.Length == Offset(rows, |weight|) && at + raw.Length <= |was|
    requires r < rows == |now| && forall k :: 0 <= k < rows ==> |now[k]| == |weight|
    requires output[..] == Splice(was, at, Flatten(now, |weight|))
    modifies output
    ensures output[..] ==
            Splice(was, at, Flatten(now[r := RmsRow(Rows(raw[..], rows, |weight|)[r], weight, epsilon)], |weight|))
  {
    hide Splice, Flatten, Offset, RmsRow, Rows;
    var w := |weight|;
    ghost var row := Rows(raw[..], rows, w)[r];
    RowInside(rows, w, r);
    assert row == Row(raw[..], rows, w, r);
    assert output.Length == |was|;
    SpliceFlatten(was, at, now, w, r, RmsRow(row, weight, epsilon));
    NormSpan(raw, Offset(r, w), weight, output, at + Offset(r, w), epsilon);
  }

  method GateSpan(output: array<Scalar>, at: nat, z: seq<Scalar>)
    requires at + |z| <= output.Length
    modifies output
    ensures output[..] == Splice(old(output[..]), at, GateRow(old(output[at..at + |z|]), z))
  {
    ghost var was := output[..];
    ghost var target := GateRow(was[at..at + |z|], z);
    for i := 0 to |z|
      invariant forall k :: 0 <= k < output.Length ==>
        output[k] == if at <= k < at + i then target[k - at] else was[k]
    {
      output[at + i] := Mul(output[at + i], Silu(z[i]));
    }
    ByCells(output[..], was, at, target);
  }

  method WriteOutput(args: DeltaArgs, weights: DeltaWeights, raw: array<Scalar>, x: seq<Scalar>, output: array<Scalar>, at: nat)
    requires args.Valid() && FitsDelta(args, weights) && |x| == args.Stride()
    requires raw != output && raw.Length == args.hiddenSize && at + args.hiddenSize <= output.Length
    modifies output
    ensures output[..] == Splice(old(output[..]), at,
              StepOutput(args, weights, Rows(raw[..], args.valueHeads, args.valueDim), x))
  {
    hide Splice, Flatten, RmsRow, GateRow, Rows;
    ghost var was := output[..];
    ghost var normed := Flatten(RmsRows(Rows(raw[..], args.valueHeads, args.valueDim), args.valueDim,
                                        weights.outputNorm, args.epsilon), args.valueDim);
    var z := x[args.ConvDim() + args.valueHeads + args.valueHeads..];
    SplicePut(was, at, normed);
    SpliceOver(was, at, normed, GateRow(normed, z));
    NormInto(raw, args.valueHeads, weights.outputNorm, args.epsilon, output, at);
    GateSpan(output, at, z);
  }

  // ----- one token, and a prefill -----

  method Step(args: DeltaArgs, weights: DeltaWeights, x: seq<Scalar>, output: array<Scalar>, at: nat, state: GatedDeltaState)
    requires FitsDelta(args, weights) && |x| == args.Stride() && state.Valid(args)
    requires output != state.convolution && output != state.recurrent && at + args.hiddenSize <= output.Length
    modifies output, state.convolution, state.recurrent
    ensures state.Valid(args)
    ensures state.Contents(args) == StepMemory(args, weights, old(state.Contents(args)), x)
    ensures output[..] == Splice(old(output[..]), at, StepRow(args, weights, old(state.Contents(args)), x))
  {
    hide ConvolveAll, StepHeads, ReadHeads, StepOutput, ShiftAll, Splice, HeadsOf, FitsDelta, Rows, HeadsNormalized;
    ghost var memory := state.Contents(args);
    var convolved := Convolve(args, weights, x, state.convolution);
    ghost var y0 := convolved[..];
    if args.convWidth > 1 {
      ShiftHistories(state.convolution, args.ConvDim(), args.History(), x);
    } else {
      EmptyShift(args, memory.histories, x);
    }
    NormalizeHeads(args, convolved);
    var raw := new Scalar[args.ValueSize()](_ => Zero);
    UpdateHeads(args, weights, x, convolved[..], state.recurrent, raw, y0);
    WriteOutput(args, weights, raw, x, output, at);
  }

  lemma {:induction false} EmptyShift(args: DeltaArgs, histories: seq<seq<Scalar>>, x: seq<Scalar>)
    requires args.Valid() && args.convWidth == 1 && |x| == args.Stride()
    requires IsMatrix(histories, args.ConvDim(), args.History())
    ensures ShiftAll(histories, x) == histories
  {
  }

  /** One token, checked: a shape mismatch is rejected before anything is written. */
  method GatedDeltaStep(args: DeltaArgs, weights: DeltaWeights, x: seq<Scalar>, output: array<Scalar>, state: GatedDeltaState)
    returns (ok: bool)
    requires state.convolution != state.recurrent && output != state.convolution && output != state.recurrent
    modifies output, state.convolution, state.recurrent
    ensures ok <==> state.Valid(args) && FitsDelta(args, weights) && |x| == args.Stride() && output.Length == args.hiddenSize
    ensures ok ==> state.Contents(args) == StepMemory(args, weights, old(state.Contents(args)), x)
    ensures ok ==> output[..] == StepRow(args, weights, old(state.Contents(args)), x)
    ensures !ok ==> output[..] == old(output[..]) && state.convolution[..] == old(state.convolution[..])
                    && state.recurrent[..] == old(state.recurrent[..])
  {
    hide StepMemory, StepRow, FitsDelta, Rows, Offset, DeltaArgs.Stride, GatedDeltaState.Contents;
    if !state.Valid(args) || !FitsDelta(args, weights) || |x| != args.Stride() || output.Length != args.hiddenSize {
      return false;
    }
    Step(args, weights, x, output, 0, state);
    ok := true;
  }

  method Prefill(args: DeltaArgs, weights: DeltaWeights, input: seq<Scalar>, output: array<Scalar>, state: GatedDeltaState)
    returns (ok: bool)
    requires state.convolution != state.recurrent && output != state.convolution && output != state.recurrent
    modifies output, state.convolution, state.recurrent
    ensures ok <==> state.Valid(args) && FitsDelta(args, weights)
                    && |input| == Offset(args.tokens, args.Stride())
                    && output.Length == Offset(args.tokens, args.hiddenSize)
    ensures ok ==> PackedRows(args, Rows(input, args.tokens, args.Stride()))
    ensures ok ==> state.Contents(args)
                   == RunMemory(args, weights, old(state.Contents(args)), Rows(input, args.tokens, args.Stride()))
    ensures ok ==> Rows(output[..], args.tokens, args.hiddenSize)
                   == RunRows(args, weights, old(state.Contents(args)), Rows(input, args.tokens, args.Stride()))
    ensures !ok ==> output[..] == old(output[..]) && state.convolution[..] == old(state.convolution[..])
                    && state.recurrent[..] == old(state.recurrent[..])
  {
    hide StepMemory, StepRow, FitsDelta, Rows, Offset, RunMemory, RunRows, DeltaArgs.Stride, GatedDeltaState.Contents;
    if !state.Valid(args) || |input| != Offset(args.tokens, args.Stride())
       || output.Length != Offset(args.tokens, args.hiddenSize) || !FitsDelta(args, weights) {
      return false;
    }
    PrefillTokens(args, weights, input, output, state);
    ok := true;
  }

  method PrefillTokens(args: DeltaArgs, weights: DeltaWeights, input: seq<Scalar>, output: array<Scalar>, state: GatedDeltaState)
    requires FitsDelta(args, weights) && state.Valid(args)
    requires output != state.convolution && output != state.recurrent
    requires |input| == Offset(args.tokens, args.Stride()) && output.Length == Offset(args.tokens, args.hiddenSize)
    modifies output, state.convolution, state.recurrent
    ensures state.Valid(args)
    ensures state.Contents(args)
            == RunMemory(args, weights, old(state.Contents(args)), Rows(input, args.tokens, args.Stride()))
    ensures Rows(output[..], args.tokens, args.hiddenSize)
            == RunRows(args, weights, old(state.Contents(args)), Rows(input, args.tokens, args.Stride()))
  {
    hide StepMemory, StepRow, FitsDelta, Rows, Offset, RunMemory, RunRows, DeltaArgs.Valid, DeltaArgs.Stride, PackedRows, Fits;
    ghost var memory := state.Contents(args);
    ghost var xs := Rows(input, args.tokens, args.Stride());
    RunStart(args, weights, memory, xs);
    for token := 0 to args.tokens
      invariant state.Valid(args)
      invariant state.Contents(args) == RunMemory(args, weights, memory, xs[..token])
      invariant forall t :: 0 <= t < token ==>
        Rows(output[..], args.tokens, args.hiddenSize)[t] == RunRows(args, weights, memory, xs)[t]
    {
      RunStep(args, weights, memory, xs, token);
      StepNth(args, weights, input, output, state, token);
    }
  }

  lemma {:induction false} RunStart(args: DeltaArgs, weights: DeltaWeights, memory: Memory, xs: seq<seq<Scalar>>)
    requires args.Valid() && FitsDelta(args, weights) && Fits(args, memory)
    requires forall t :: 0 <= t < |xs| ==> |xs[t]| == args.Stride()
    ensures PackedRows(args, xs) && forall t :: 0 <= t <= |xs| ==> PackedRows(args, xs[..t])
    ensures RunMemory(args, weights, memory, xs[..0]) == memory && xs[..|xs|] == xs
  {
    hide FitsDelta, Fits, StepMemory;
  }

  lemma {:induction false} RunStep(args: DeltaArgs, weights: DeltaWeights, memory: Memory, xs: seq<seq<Scalar>>, t: nat)
    requires args.Valid() && FitsDelta(args, weights) && Fits(args, memory) && PackedRows(args, xs) && t < |xs|
    ensures |xs[t]| == args.Stride() && PackedRows(args, xs[..t]) && PackedRows(args, xs[..t + 1])
    ensures RunMemory(args, weights, memory, xs[..t + 1]) == StepMemory(args, weights, RunMemory(args, weights, memory, xs[..t]), xs[t])
    ensures RunRows(args, weights, memory, xs)[t] == StepRow(args, weights, RunMemory(args, weights, memory, xs[..t]), xs[t])
  {
    hide FitsDelta, Fits, StepMemory, StepRow;
    assert xs[..t + 1][..t] == xs[..t];
  }

  method StepNth(args: DeltaArgs, weights: DeltaWeights, input: seq<Scalar>, output: array<Scalar>, state: GatedDeltaState, token: nat)
    requires FitsDelta(args, weights) && state.Valid(args) && token < args.tokens
    requires output != state.convolution && output != state.recurrent
    requires |input| == Offset(args.tokens, args.Stride()) && output.Length == Offset(args.tokens, args.hiddenSize)
    modifies output, state.convolution, state.recurrent
    ensures state.Valid(args)
    ensures
      var x := Rows(input, args.tokens, args.Stride())[token];
      && state.Contents(args) == StepMemory(args, weights, old(state.Contents(args)), x)
      && Rows(output[..], args.tokens, args.hiddenSize)
         == old(Rows(output[..], args.tokens, args.hiddenSize))
            [token := StepRow(args, weights, old(state.Contents(args)), x)]
  {
    hide StepMemory, StepRow, FitsDelta, Rows, Offset, Splice, DeltaArgs.Valid, DeltaArgs.Stride;
    var w := args.Stride();
    RowInside(args.tokens, w, token);
    var x := input[Offset(token, w)..Offset(token, w) + w];
    assert Rows(input, args.tokens, w)[token] == x;
    SetRow(output[..], args.tokens, args.hiddenSize, token, StepRow(args, weights, state.Contents(args), x));
    Step(args, weights, x, output, Offset(token, args.hiddenSize), state);
  }
}
