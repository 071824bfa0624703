/** Causal grouped-query attention of the CPU reference, with its scratch buffers. */
module Attention {
  import opened Prelude
  import opened Matrix
  import opened Scalars
  import opened Kernels

  datatype FullArgs = FullArgs(
    tokens: nat, hiddenSize: nat, queryHeads: nat, kvHeads: nat, headDim: nat,
    rotaryDim: nat, positionOffset: nat, ropeBase: Scalar, epsilon: Scalar)
  {
    /** The integer checks of `validate_full_args`. */
    predicate Valid() {
      && tokens > 0 && hiddenSize > 0 && queryHeads > 0 && kvHeads > 0 && headDim > 0
      && rotaryDim <= headDim && rotaryDim % 2 == 0
      && queryHeads % kvHeads == 0
      && QSize() == hiddenSize
    }

    function QSize(): nat { Offset(queryHeads, headDim) }

    function KvSize(): nat { Offset(kvHeads, headDim) }

    function Stride(): nat { QSize() + KvSize() + KvSize() + hiddenSize }

    /** The key/value head a query head reads. */
    function KvHead(queryHead: nat): (kv: nat)
      requires Valid() && queryHead < queryHeads
      ensures kv < kvHeads
    {
      GroupInside(queryHeads, kvHeads, queryHead);
      queryHead / (queryHeads / kvHeads)
    }
  }

  datatype FullWeights = FullWeights(queryNorm: seq<Scalar>, keyNorm: seq<Scalar>, output: seq<Scalar>)

  lemma {:induction false} GroupInside(heads: nat, groups: nat, head: nat)
    requires 0 < groups && heads % groups == 0 && head < heads
    ensures 0 < heads / groups && head / (heads / groups) < groups
  {
    var size := heads / groups;
    assert heads == groups * size;
    assert head == size * (head / size) + head % size;
    if head / size >= groups {
      MulLe(groups, head / size, size);
      assert false;
    }
  }

  // ----- what one query head computes -----

  function Logits(q: seq<Scalar>, keys: seq<seq<Scalar>>): (logits: seq<Scalar>)
    requires forall j :: 0 <= j < |keys| ==> |keys[j]| == |q|
    ensures |logits| == |keys|
  {
    seq(|keys|, j requires 0 <= j < |keys| =>
      ToFloat(DivD(DotD(q, keys[j], |q|), Unary(DSqrt, OfNat(|q|)))))
  }

  function MaxLogit(logits: seq<Scalar>, n: nat): Scalar
    requires n <= |logits|
  {
    if n == 0 then NegInfinity else Max(MaxLogit(logits, n - 1), logits[n - 1])
  }

  function Shifted(logits: seq<Scalar>, top: Scalar): (p: seq<Scalar>)
    ensures |p| == |logits|
  {
    seq(|logits|, j requires 0 <= j < |logits| => ToFloat(Unary(DExp, SubD(logits[j], top))))
  }

  function SumD(p: seq<Scalar>, n: nat): Scalar
    requires n <= |p|
  {
    if n == 0 then Zero else AddD(SumD(p, n - 1), p[n - 1])
  }

  function Normalized(p: seq<Scalar>, total: Scalar): (r: seq<Scalar>)
    ensures |r| == |p|
  {
    seq(|p|, j requires 0 <= j < |p| => ToFloat(DivD(p[j], total)))
  }

  function Softmax(logits: seq<Scalar>): (p: seq<Scalar>)
    ensures |p| == |logits|
  {
    var shifted := Shifted(logits, MaxLogit(logits, |logits|));
    Normalized(shifted, SumD(shifted, |shifted|))
  }

  /** The first `n` weighted values summed, dimension by dimension. */
  function Mix(p: seq<Scalar>, values: seq<seq<Scalar>>, dim: nat, n: nat): (out: seq<Scalar>)
    requires n <= |p| == |values|
    requires forall j :: 0 <= j < |values| ==> |values[j]| == dim
    ensures |out| == dim
  {
    seq(dim, d requires 0 <= d < dim => DotF(Zero, p, Column(values, dim, d), n))
  }

  function HeadOutput(q: seq<Scalar>, keys: seq<seq<Scalar>>, values: seq<seq<Scalar>>): (out: seq<Scalar>)
    requires |keys| == |values|
    requires forall j :: 0 <= j < |keys| ==> |keys[j]| == |q| && |values[j]| == |q|
    ensures |out| == |q|
  {
    Mix(Softmax(Logits(q, keys)), values, |q|, |keys|)
  }

  // ----- the scratch loops of one query head -----

  /** Vectors of one head, token by token, inside a flat `tokens x kvSize` buffer. */
  function HeadVectors(flat: seq<Scalar>, tokens: nat, kvSize: nat, at: nat, dim: nat, n: nat): (vs: seq<seq<Scalar>>)
    requires |flat| == Offset(tokens, kvSize) && at + dim <= kvSize && n <= tokens
    ensures |vs| == n
    ensures forall j :: 0 <= j < n ==> |vs[j]| == dim
  {
    seq(n, j requires 0 <= j < n => Row(flat, tokens, kvSize, j)[at..at + dim])
  }

  lemma {:induction false} HeadVectorCell(flat: seq<Scalar>, tokens: nat, kvSize: nat, at: nat, dim: nat, n: nat, j: nat)
    requires |flat| == Offset(tokens, kvSize) && at + dim <= kvSize && n <= tokens && j < n
    ensures Offset(j, kvSize) + at + dim <= |flat|
    ensures HeadVectors(flat, tokens, kvSize, at, dim, n)[j] == flat[Offset(j, kvSize) + at..Offset(j, kvSize) + at + dim]
  {
    RowInside(tokens, kvSize, j);
    SubSlice(flat, Offset(j, kvSize), kvSize, at, dim);
  }

  method ComputeLogit(q: seq<Scalar>, keys: seq<Scalar>, tokens: nat, kvSize: nat, at: nat, token: nat, keyToken: nat)
    returns (logit: Scalar)
    requires |keys| == Offset(tokens, kvSize) && at + |q| <= kvSize && keyToken <= token < tokens
    ensures logit == Logits(q, HeadVectors(keys, tokens, kvSize, at, |q|, token + 1))[keyToken]
  {
    HeadVectorCell(keys, tokens, kvSize, at, |q|, token + 1, keyToken);
    var dot := DotLoop(q, keys, Offset(keyToken, kvSize) + at);
    logit := ToFloat(DivD(dot, Unary(DSqrt, OfNat(|q|))));
  }

  method ComputeLogits(q: seq<Scalar>, keys: seq<Scalar>, tokens: nat, kvSize: nat, at: nat, token: nat,
                       logits: array<Scalar>)
    returns (maxLogit: Scalar)
    requires |keys| == Offset(tokens, kvSize) && at + |q| <= kvSize && token < tokens == logits.Length
    modifies logits
    ensures logits[..token + 1] == Logits(q, HeadVectors(keys, tokens, kvSize, at, |q|, token + 1))
    ensures maxLogit == MaxLogit(logits[..token + 1], token + 1)
  {
    hide Logits, HeadVectors;
    ghost var target := Logits(q, HeadVectors(keys, tokens, kvSize, at, |q|, token + 1));
    maxLogit := NegInfinity;
    for keyToken := 0 to token + 1
      invariant forall j :: 0 <= j < keyToken ==> logits[j] == target[j]
      invariant maxLogit == MaxLogit(target, keyToken)
    {
      var logit := ComputeLogit(q, keys, tokens, kvSize, at, token, keyToken);
      logits[keyToken] := logit;
      maxLogit := Max(maxLogit, logit);
    }
    assert logits[..token + 1] == target;
  }

  method Exponentiate(logits: seq<Scalar>, maxLogit: Scalar, probabilities: array<Scalar>) returns (sum: Scalar)
    requires |logits| <= probabilities.Length
    modifies probabilities
    ensures probabilities[..|logits|] == Shifted(logits, maxLogit)
    ensures sum == SumD(Shifted(logits, maxLogit), |logits|)
  {
    ghost var target := Shifted(logits, maxLogit);
    sum := Zero;
    for keyToken := 0 to |logits|
      invariant forall j :: 0 <= j < keyToken ==> probabilities[j] == target[j]
      invariant sum == SumD(target, keyToken)
    {
      var shifted := SubD(logits[keyToken], maxLogit);
      probabilities[keyToken] := ToFloat(Unary(DExp, shifted));
      sum := AddD(sum, probabilities[keyToken]);
    }
    assert probabilities[..|logits|] == target;
  }

  method Divide(probabilities: array<Scalar>, n: nat, sum: Scalar)
    requires n <= probabilities.Length
    modifies probabilities
    ensures probabilities[..n] == Normalized(old(probabilities[..n]), sum)
  {
    ghost var was := probabilities[..n];
    ghost var target := Normalized(was, sum);
    for keyToken := 0 to n
      invariant forall j :: 0 <= j < n ==> probabilities[j] == if j < keyToken then target[j] else was[j]
    {
      probabilities[keyToken] := ToFloat(DivD(probabilities[keyToken], sum));
    }
    assert probabilities[..n] == target;
  }

  method Accumulate(p: seq<Scalar>, values: seq<Scalar>, tokens: nat, kvSize: nat, valueAt: nat, dim: nat,
                    attention: array<Scalar>, at: nat)
    requires |values| == Offset(tokens, kvSize) && valueAt + dim <= kvSize && |p| <= tokens
    requires at + dim <= attention.Length
    requires forall d :: at <= d < at + dim ==> attention[d] == Zero
    modifies attention
    ensures attention[..] == Splice(old(attention[..]), at,
              Mix(p, HeadVectors(values, tokens, kvSize, valueAt, dim, |p|), dim, |p|))
  {
    ghost var was := attention[..];
    ghost var vectors := HeadVectors(values, tokens, kvSize, valueAt, dim, |p|);
    ByCells(was, was, at, Mix(p, vectors, dim, 0));
    for keyToken := 0 to |p|
      invariant attention[..] == Splice(was, at, Mix(p, vectors, dim, keyToken))
    {
      HeadVectorCell(values, tokens, kvSize, valueAt, dim, |p|, keyToken);
      AccumulateToken(p, values[Offset(keyToken, kvSize) + valueAt..Offset(keyToken, kvSize) + valueAt + dim],
                      keyToken, attention, at, was, vectors);
    }
  }

  method AccumulateToken(p: seq<Scalar>, value: seq<Scalar>, keyToken: nat, attention: array<Scalar>, at: nat,
                         ghost was: seq<Scalar>, ghost vectors: seq<seq<Scalar>>)
    requires keyToken < |p| == |vectors| && at + |value| <= |was|
    requires forall j :: 0 <= j < |vectors| ==> |vectors[j]| == |value|
    requires value == vectors[keyToken]
    requires attention[..] == Splice(was, at, Mix(p, vectors, |value|, keyToken))
    modifies attention
    ensures attention[..] == Splice(was, at, Mix(p, vectors, |value|, keyToken + 1))
  {
    ghost var before := Mix(p, vectors, |value|, keyToken);
    assert attention.Length == |was|;
    ghost var after := Mix(p, vectors, |value|, keyToken + 1);
    SpliceOver(was, at, before, after);
    assert attention[at..at + |value|] == before;
    assert after == AddScaled(before, p[keyToken], value);
    AddWeighted(p[keyToken], value, attention, at);
  }

  // ----- query and key heads: per-head RMSNorm, then partial rotary embedding -----

  function PrepareHead(args: FullArgs, head: seq<Scalar>, weight: seq<Scalar>, position: nat): (out: seq<Scalar>)
    requires |head| == |weight| && args.rotaryDim <= |head|
    ensures |out| == |head|
  {
    RopeRow(RmsRow(head, weight, args.epsilon), args.rotaryDim, position, args.ropeBase)
  }

  function PrepareHeads(args: FullArgs, heads: seq<seq<Scalar>>, weight: seq<Scalar>, position: nat): (out: seq<seq<Scalar>>)
    requires args.rotaryDim <= |weight|
    requires forall h :: 0 <= h < |heads| ==> |heads[h]| == |weight|
    ensures |out| == |heads|
    ensures forall h :: 0 <= h < |out| ==> |out[h]| == |weight|
  {
    seq(|heads|, h requires 0 <= h < |heads| => PrepareHead(args, heads[h], weight, position))
  }

  lemma {:induction false} SpliceNested<T>(was: seq<T>, at: nat, mid: seq<T>, o: nat, row: seq<T>)
    requires at + |mid| <= |was| && o + |row| <= |mid|
    ensures Splice(Splice(was, at, mid), at + o, row) == Splice(was, at, Splice(mid, o, row))
    ensures Splice(was, at, mid)[at + o..at + o + |row|] == mid[o..o + |row|]
  {
    ByCells(Splice(Splice(was, at, mid), at + o, row), was, at, Splice(mid, o, row));
  }

  method PrepareHeadInPlace(args: FullArgs, buffer: array<Scalar>, at: nat, weight: seq<Scalar>, position: nat)
    requires at + |weight| <= buffer.Length && args.rotaryDim <= |weight|
    modifies buffer
    ensures buffer[..] ==
            Splice(old(buffer[..]), at, PrepareHead(args, old(buffer[at..at + |weight|]), weight, position))
  {
    ghost var was := buffer[..];
    NormSpan(buffer, at, weight, buffer, at, args.epsilon);
    ghost var normed := RmsRow(was[at..at + |weight|], weight, args.epsilon);
    SpliceOver(was, at, normed, RopeRow(normed, args.rotaryDim, position, args.ropeBase));
    ApplyPartialRope(buffer, at, |weight|, args.rotaryDim, position, args.ropeBase);
  }

  /** The buffer stretch after the first `done` heads have been prepared. */
  function PartlyPrepared(args: FullArgs, heads: seq<seq<Scalar>>, weight: seq<Scalar>, position: nat, done: nat): (out: seq<seq<Scalar>>)
    requires args.rotaryDim <= |weight| && done <= |heads|
    requires forall h :: 0 <= h < |heads| ==> |heads[h]| == |weight|
    ensures |out| == |heads|
    ensures forall h :: 0 <= h < |out| ==> |out[h]| == |weight|
  {
    PrepareHeads(args, heads[..done], weight, position) + heads[done..]
  }

  lemma {:induction false} PartlyPreparedStep(args: FullArgs, heads: seq<seq<Scalar>>, weight: seq<Scalar>, position: nat, done: nat)
    requires args.rotaryDim <= |weight| && done < |heads|
    requires forall h :: 0 <= h < |heads| ==> |heads[h]| == |weight|
    ensures PartlyPrepared(args, heads, weight, position, done)[done] == heads[done]
    ensures PartlyPrepared(args, heads, weight, position, done + 1)
            == PartlyPrepared(args, heads, weight, position, done)[done := PrepareHead(args, heads[done], weight, position)]
  {
  }

  lemma {:induction false} SpliceFlatten<T>(was: seq<T>, at: nat, m: seq<seq<T>>, w: nat, r: nat, row: seq<T>)
    requires forall k :: 0 <= k < |m| ==> |m[k]| == w
    requires r < |m| && |row| == w && at + Offset(|m|, w) <= |was|
    ensures Offset(r, w) + w <= Offset(|m|, w)
    ensures Splice(was, at, Flatten(m, w))[at + Offset(r, w)..at + Offset(r, w) + w] == m[r]
    ensures Splice(Splice(was, at, Flatten(m, w)), at + Offset(r, w), row) == Splice(was, at, Flatten(m[r := row], w))
  {
    FlattenSetRow(m, w, r, row);
    SpliceNested(was, at, Flatten(m, w), Offset(r, w), row);
  }

  method PrepareNth(args: FullArgs, buffer: array<Scalar>, at: nat, weight: seq<Scalar>, position: nat, head: nat,
                    ghost was: seq<Scalar>, ghost now: seq<seq<Scalar>>)
    requires forall h :: 0 <= h < |now| ==> |now[h]| == |weight|
    requires head < |now| && args.rotaryDim <= |weight| && at + Offset(|now|, |weight|) <= |was|
    requires buffer[..] == Splice(was, at, Flatten(now, |weight|))
    modifies buffer
    ensures buffer[..] ==
            Splice(was, at, Flatten(now[head := PrepareHead(args, now[head], weight, position)], |weight|))
  {
    hide PrepareHead;
    SpliceFlatten(was, at, now, |weight|, head, PrepareHead(args, now[head], weight, position));
    assert buffer.Length == |was|;
    PrepareHeadInPlace(args, buffer, at + Offset(head, |weight|), weight, position);
  }

  method PrepareHeadsInPlace(args: FullArgs, buffer: array<Scalar>, at: nat, heads: nat, weight: seq<Scalar>, position: nat)
    requires at + Offset(heads, |weight|) <= buffer.Length && args.rotaryDim <= |weight|
    modifies buffer
    ensures buffer[..] ==
            Splice(old(buffer[..]), at,
                   Flatten(PrepareHeads(args, Rows(old(buffer[at..at + Offset(heads, |weight|)]), heads, |weight|),
                                        weight, position), |weight|))
  {
    hide PrepareHead, PrepareHeads, Rows, Flatten;
    ghost var was := buffer[..];
    ghost var stretch := was[at..at + Offset(heads, |weight|)];
    ghost var rows := Rows(stretch, heads, |weight|);
    ghost var now := rows;
    assert PartlyPrepared(args, rows, weight, position, 0) == rows;
    FlattenRows(stretch, heads, |weight|);
    JoinSplice(was, was, at, stretch);
    for head := 0 to heads
      invariant now == PartlyPrepared(args, rows, weight, position, head)
      invariant buffer[..] == Splice(was, at, Flatten(now, |weight|))
    {
      PartlyPreparedStep(args, rows, weight, position, head);
      PrepareNth(args, buffer, at, weight, position, head, was, now);
      now := now[head := PrepareHead(args, now[head], weight, position)];
    }
    assert rows[..heads] == rows;
    assert now == PrepareHeads(args, rows, weight, position);
  }

  // ----- the whole mixer, as a function of the packed rows -----

  /** A packed row is [q, k, v, gate]. */
  function QueryHeads(args: FullArgs, weights: FullWeights, row: seq<Scalar>, token: nat): (heads: seq<seq<Scalar>>)
    requires args.Valid() && |row| == args.Stride() && |weights.queryNorm| == args.headDim
    ensures |heads| == args.queryHeads && forall h :: 0 <= h < |heads| ==> |heads[h]| == args.headDim
  {
    PrepareHeads(args, Rows(row[..args.QSize()], args.queryHeads, args.headDim),
                 weights.queryNorm, args.positionOffset + token)
  }

  function KeyHeads(args: FullArgs, weights: FullWeights, row: seq<Scalar>, token: nat): (heads: seq<seq<Scalar>>)
    requires args.Valid() && |row| == args.Stride() && |weights.keyNorm| == args.headDim
    ensures |heads| == args.kvHeads && forall h :: 0 <= h < |heads| ==> |heads[h]| == args.headDim
  {
    PrepareHeads(args, Rows(row[args.QSize()..args.QSize() + args.KvSize()], args.kvHeads, args.headDim),
                 weights.keyNorm, args.positionOffset + token)
  }

  function ValueHeads(args: FullArgs, row: seq<Scalar>): (heads: seq<seq<Scalar>>)
    requires |row| == args.Stride()
    ensures |heads| == args.kvHeads && forall h :: 0 <= h < |heads| ==> |heads[h]| == args.headDim
  {
    var at := args.QSize() + args.KvSize();
    Rows(row[at..at + args.KvSize()], args.kvHeads, args.headDim)
  }

  function Gate(args: FullArgs, row: seq<Scalar>): (gate: seq<Scalar>)
    requires |row| == args.Stride()
    ensures |gate| == args.hiddenSize
  {
    row[args.QSize() + args.KvSize() + args.KvSize()..]
  }

  ghost predicate Packed(args: FullArgs, xs: seq<seq<Scalar>>) {
    forall t :: 0 <= t < |xs| ==> |xs[t]| == args.Stride()
  }

  predicate FitsWeights(args: FullArgs, weights: FullWeights) {
    && |weights.queryNorm| == args.headDim
    && |weights.keyNorm| == args.headDim
    && |weights.output| == Offset(args.hiddenSize, args.hiddenSize)
  }

  /** Keys (values) of one head for every token of `xs`. */
  function KeysOf(args: FullArgs, weights: FullWeights, xs: seq<seq<Scalar>>, kv: nat): (keys: seq<seq<Scalar>>)
    requires args.Valid() && Packed(args, xs) && FitsWeights(args, weights) && kv < args.kvHeads
    ensures |keys| == |xs| && forall j :: 0 <= j < |keys| ==> |keys[j]| == args.headDim
  {
    seq(|xs|, j requires 0 <= j < |xs| => KeyHeads(args, weights, xs[j], j)[kv])
  }

  function ValuesOf(args: FullArgs, xs: seq<seq<Scalar>>, kv: nat): (values: seq<seq<Scalar>>)
    requires Packed(args, xs) && kv < args.kvHeads
    ensures |values| == |xs| && forall j :: 0 <= j < |values| ==> |values[j]| == args.headDim
  {
    seq(|xs|, j requires 0 <= j < |xs| => ValueHeads(args, xs[j])[kv])
  }

  /** What the last token of a nonempty prefix attends to: the tokens of that prefix, itself included. */
  function AttendedHeads(args: FullArgs, weights: FullWeights, xs: seq<seq<Scalar>>): (heads: seq<seq<Scalar>>)
    requires args.Valid() && Packed(args, xs) && FitsWeights(args, weights) && |xs| > 0
    ensures |heads| == args.queryHeads && forall h :: 0 <= h < |heads| ==> |heads[h]| == args.headDim
  {
    var last := |xs| - 1;
    seq(args.queryHeads, h requires 0 <= h < args.queryHeads =>
      HeadOutput(QueryHeads(args, weights, xs[last], last)[h],
                 KeysOf(args, weights, xs, args.KvHead(h)), ValuesOf(args, xs, args.KvHead(h))))
  }

  function Gated(attention: seq<Scalar>, gate: seq<Scalar>): (out: seq<Scalar>)
    requires |attention| == |gate|
    ensures |out| == |attention|
  {
    seq(|attention|, c requires 0 <= c < |attention| => Mul(attention[c], Sigmoid(gate[c])))
  }

  /** `x` times a matrix stored input-major, as the output projection reads it. */
  function ProjectRow(x: seq<Scalar>, weight: seq<seq<Scalar>>, w: nat): (y: seq<Scalar>)
    requires |weight| == |x| && forall i :: 0 <= i < |weight| ==> |weight[i]| == w
    ensures |y| == w
  {
    seq(w, o requires 0 <= o < w => ToFloat(DotD(x, Column(weight, w, o), |x|)))
  }

  function AttendLast(args: FullArgs, weights: FullWeights, xs: seq<seq<Scalar>>): (out: seq<Scalar>)
    requires args.Valid() && Packed(args, xs) && FitsWeights(args, weights) && |xs| > 0
    ensures |out| == args.hiddenSize
  {
    var attention := Flatten(AttendedHeads(args, weights, xs), args.headDim);
    ProjectRow(Gated(attention, Gate(args, xs[|xs| - 1])),
               Rows(weights.output, args.hiddenSize, args.hiddenSize), args.hiddenSize)
  }

  /** The mixer's output rows: row `t` is computed from the packed rows up to and including `t`. */
  function AttentionRows(args: FullArgs, weights: FullWeights, xs: seq<seq<Scalar>>): (ys: seq<seq<Scalar>>)
    requires args.Valid() && Packed(args, xs) && FitsWeights(args, weights)
    ensures |ys| == |xs| && forall t :: 0 <= t < |ys| ==> |ys[t]| == args.hiddenSize
  {
    seq(|xs|, t requires 0 <= t < |xs| => AttendLast(args, weights, xs[..t + 1]))
  }
}
