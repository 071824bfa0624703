/** `qwen35_gated_full_attention`: the loops that fill the query, key and value buffers and
    then attend token by token through scratch buffers that are never cleared. */
module FullAttention {
  import opened Matrix
  import opened Scalars
  import opened Kernels
  import opened Attention

  // ----- loading queries, keys and values -----

  method CopySpan(src: seq<Scalar>, dst: array<Scalar>, at: nat)
    requires at + |src| <= dst.Length
    modifies dst
    ensures dst[..] == Splice(old(dst[..]), at, src)
  {
    ghost var was := dst[..];
    for i := 0 to |src|
      invariant forall k :: 0 <= k < dst.Length ==> dst[k] == if at <= k < at + i then src[k - at] else was[k]
    {
      dst[at + i] := src[i];
    }
    ByCells(dst[..], was, at, src);
  }

  method LoadHeads(args: FullArgs, src: seq<Scalar>, heads: nat, weight: seq<Scalar>, position: nat,
                   dst: array<Scalar>, at: nat)
    requires |weight| == args.headDim && args.rotaryDim <= args.headDim
    requires |src| == Offset(heads, args.headDim) && at + |src| <= dst.Length
    modifies dst
    ensures dst[..] == Splice(old(dst[..]), at,
              Flatten(PrepareHeads(args, Rows(src, heads, args.headDim), weight, position), args.headDim))
  {
    hide PrepareHeads, Flatten, Rows;
    ghost var was := dst[..];
    CopySpan(src, dst, at);
    ghost var prepared := Flatten(PrepareHeads(args, Rows(src, heads, args.headDim), weight, position), args.headDim);
    SpliceOver(was, at, src, prepared);
    PrepareHeadsInPlace(args, dst, at, heads, weight, position);
  }

  ghost predicate LoadedRow(args: FullArgs, weights: FullWeights, xs: seq<seq<Scalar>>, t: nat,
                            queries: seq<seq<Scalar>>, keys: seq<seq<Scalar>>, values: seq<seq<Scalar>>)
    requires args.Valid() && Packed(args, xs) && FitsWeights(args, weights)
    requires t < |xs| == |queries| == |keys| == |values|
  {
    && queries[t] == Flatten(QueryHeads(args, weights, xs[t], t), args.headDim)
    && keys[t] == Flatten(KeyHeads(args, weights, xs[t], t), args.headDim)
    && values[t] == Flatten(ValueHeads(args, xs[t]), args.headDim)
  }

  /** The three buffers hold what the packed rows say. */
  ghost predicate Loaded(args: FullArgs, weights: FullWeights, xs: seq<seq<Scalar>>,
                         queries: seq<Scalar>, keys: seq<Scalar>, values: seq<Scalar>)
    requires args.Valid() && Packed(args, xs) && FitsWeights(args, weights)
  {
    && |queries| == Offset(|xs|, args.QSize())
    && |keys| == Offset(|xs|, args.KvSize())
    && |values| == Offset(|xs|, args.KvSize())
    && forall t :: 0 <= t < |xs| ==>
         LoadedRow(args, weights, xs, t, Rows(queries, |xs|, args.QSize()),
                   Rows(keys, |xs|, args.KvSize()), Rows(values, |xs|, args.KvSize()))
  }

  method LoadToken(args: FullArgs, weights: FullWeights, row: seq<Scalar>, token: nat,
                   queries: array<Scalar>, keys: array<Scalar>, values: array<Scalar>)
    requires args.Valid() && FitsWeights(args, weights) && |row| == args.Stride()
    requires queries != keys && queries != values && keys != values
    requires Offset(token, args.QSize()) + args.QSize() <= queries.Length
    requires Offset(token, args.KvSize()) + args.KvSize() <= keys.Length == values.Length
    modifies queries, keys, values
    ensures queries[..] == Splice(old(queries[..]), Offset(token, args.QSize()),
                                  Flatten(QueryHeads(args, weights, row, token), args.headDim))
    ensures keys[..] == Splice(old(keys[..]), Offset(token, args.KvSize()),
                               Flatten(KeyHeads(args, weights, row, token), args.headDim))
    ensures values[..] == Splice(old(values[..]), Offset(token, args.KvSize()),
                                 Flatten(ValueHeads(args, row), args.headDim))
  {
    hide PrepareHeads, Flatten, Rows, Splice;
    var q, kv := args.QSize(), args.KvSize();
    LoadHeads(args, row[..q], args.queryHeads, weights.queryNorm, args.positionOffset + token,
              queries, Offset(token, q));
    LoadHeads(args, row[q..q + kv], args.kvHeads, weights.keyNorm, args.positionOffset + token,
              keys, Offset(token, kv));
    FlattenRows(row[q + kv..q + kv + kv], args.kvHeads, args.headDim);
    CopySpan(row[q + kv..q + kv + kv], values, Offset(token, kv));
  }

  lemma {:induction false} LoadedStep(args: FullArgs, weights: FullWeights, xs: seq<seq<Scalar>>, token: nat,
      qs: seq<seq<Scalar>>, ks: seq<seq<Scalar>>, vs: seq<seq<Scalar>>,
      qs': seq<seq<Scalar>>, ks': seq<seq<Scalar>>, vs': seq<seq<Scalar>>)
    requires args.Valid() && Packed(args, xs) && FitsWeights(args, weights)
    requires token < |xs| == |qs| == |ks| == |vs|
    requires forall t :: 0 <= t < token ==> LoadedRow(args, weights, xs, t, qs, ks, vs)
    requires qs' == qs[token := Flatten(QueryHeads(args, weights, xs[token], token), args.headDim)]
    requires ks' == ks[token := Flatten(KeyHeads(args, weights, xs[token], token), args.headDim)]
    requires vs' == vs[token := Flatten(ValueHeads(args, xs[token]), args.headDim)]
    ensures forall t :: 0 <= t <= token ==> LoadedRow(args, weights, xs, t, qs', ks', vs')
  {
    hide QueryHeads, KeyHeads, ValueHeads, Flatten;
    forall t | 0 <= t <= token
      ensures LoadedRow(args, weights, xs, t, qs', ks', vs')
    {
      if t < token {
        assert LoadedRow(args, weights, xs, t, qs, ks, vs);
      }
    }
  }

  method LoadTokens(args: FullArgs, weights: FullWeights, input: seq<Scalar>)
    returns (queries: seq<Scalar>, keys: seq<Scalar>, values: seq<Scalar>)
    requires args.Valid() && FitsWeights(args, weights)
    requires |input| == Offset(args.tokens, args.Stride())
    ensures Loaded(args, weights, Rows(input, args.tokens, args.Stride()), queries, keys, values)
  {
    var n, q, kv := args.tokens, args.QSize(), args.KvSize();
    ghost var xs := Rows(input, n, args.Stride());
    var queryBuffer := new Scalar[Offset(n, q)](_ => Zero);
    var keyBuffer := new Scalar[Offset(n, kv)](_ => Zero);
    var valueBuffer := new Scalar[Offset(n, kv)](_ => Zero);
    ghost var qs, ks, vs := Rows(queryBuffer[..], n, q), Rows(keyBuffer[..], n, kv), Rows(valueBuffer[..], n, kv);
    hide Rows, Offset, LoadedRow;
    for token := 0 to n
      invariant qs == Rows(queryBuffer[..], n, q)
      invariant ks == Rows(keyBuffer[..], n, kv)
      invariant vs == Rows(valueBuffer[..], n, kv)
      invariant forall t :: 0 <= t < token ==> LoadedRow(args, weights, xs, t, qs, ks, vs)
    {
      LoadNth(args, weights, input, token, queryBuffer, keyBuffer, valueBuffer);
      ghost var qs', ks', vs' := Rows(queryBuffer[..], n, q), Rows(keyBuffer[..], n, kv), Rows(valueBuffer[..], n, kv);
      LoadedStep(args, weights, xs, token, qs, ks, vs, qs', ks', vs');
      qs, ks, vs := qs', ks', vs';
    }
    queries, keys, values := queryBuffer[..], keyBuffer[..], valueBuffer[..];
  }

  method LoadNth(args: FullArgs, weights: FullWeights, input: seq<Scalar>, token: nat,
                 queries: array<Scalar>, keys: array<Scalar>, values: array<Scalar>)
    requires args.Valid() && FitsWeights(args, weights) && token < args.tokens
    requires |input| == Offset(args.tokens, args.Stride())
    requires queries != keys && queries != values && keys != values
    requires queries.Length == Offset(args.tokens, args.QSize())
    requires keys.Length == values.Length == Offset(args.tokens, args.KvSize())
    modifies queries, keys, values
    ensures
      var n, q, kv := args.tokens, args.QSize(), args.KvSize();
      var row := Rows(input, n, args.Stride())[token];
      && Rows(queries[..], n, q)
         == old(Rows(queries[..], n, q))[token := Flatten(QueryHeads(args, weights, row, token), args.headDim)]
      && Rows(keys[..], n, kv)
         == old(Rows(keys[..], n, kv))[token := Flatten(KeyHeads(args, weights, row, token), args.headDim)]
      && Rows(values[..], n, kv)
         == old(Rows(values[..], n, kv))[token := Flatten(ValueHeads(args, row), args.headDim)]
  {
    var n, q, kv := args.tokens, args.QSize(), args.KvSize();
    RowInside(n, args.Stride(), token);
    var start := Offset(token, args.Stride());
    var row := input[start..start + args.Stride()];
    assert row == Rows(input, n, args.Stride())[token];
    hide QueryHeads, KeyHeads, ValueHeads, Flatten, Rows, Splice;
    SetRow(queries[..], n, q, token, Flatten(QueryHeads(args, weights, row, token), args.headDim));
    SetRow(keys[..], n, kv, token, Flatten(KeyHeads(args, weights, row, token), args.headDim));
    SetRow(values[..], n, kv, token, Flatten(ValueHeads(args, row), args.headDim));
    LoadToken(args, weights, row, token, queries, keys, values);
  }

  // ----- attending -----

  lemma {:induction false} LoadedQuery(args: FullArgs, weights: FullWeights, xs: seq<seq<Scalar>>,
      queries: seq<Scalar>, keys: seq<Scalar>, values: seq<Scalar>, t: nat, h: nat)
    requires args.Valid() && Packed(args, xs) && FitsWeights(args, weights)
    requires Loaded(args, weights, xs, queries, keys, values)
    requires t < |xs| && h < args.queryHeads
    ensures
      var at := Offset(t, args.QSize()) + Offset(h, args.headDim);
      && at + args.headDim <= |queries|
      && queries[at..at + args.headDim] == QueryHeads(args, weights, xs[t], t)[h]
  {
    hide QueryHeads, KeyHeads, ValueHeads, Flatten;
    assert LoadedRow(args, weights, xs, t, Rows(queries, |xs|, args.QSize()),
                     Rows(keys, |xs|, args.KvSize()), Rows(values, |xs|, args.KvSize()));
    FlattenSlice(queries, |xs|, args.QSize(), t, QueryHeads(args, weights, xs[t], t), args.headDim, h);
  }

  /** A head inside a row that is a flattened list of heads. */
  lemma {:induction false} FlattenSlice(flat: seq<Scalar>, n: nat, w: nat, t: nat, heads: seq<seq<Scalar>>, dim: nat, h: nat)
    requires |flat| == Offset(n, w) && t < n && h < |heads|
    requires forall k :: 0 <= k < |heads| ==> |heads[k]| == dim
    requires w == Offset(|heads|, dim) && Row(flat, n, w, t) == Flatten(heads, dim)
    ensures Offset(h, dim) + dim <= w
    ensures Offset(t, w) + Offset(h, dim) + dim <= |flat|
    ensures flat[Offset(t, w) + Offset(h, dim)..Offset(t, w) + Offset(h, dim) + dim] == heads[h]
    ensures Row(flat, n, w, t)[Offset(h, dim)..Offset(h, dim) + dim] == heads[h]
  {
    FlattenSetRow(heads, dim, h, heads[h]);
    RowInside(n, w, t);
    SubSlice(flat, Offset(t, w), w, Offset(h, dim), dim);
  }

  lemma {:induction false} LoadedKeys(args: FullArgs, weights: FullWeights, xs: seq<seq<Scalar>>,
      queries: seq<Scalar>, keys: seq<Scalar>, values: seq<Scalar>, t: nat, kv: nat)
    requires args.Valid() && Packed(args, xs) && FitsWeights(args, weights)
    requires Loaded(args, weights, xs, queries, keys, values)
    requires t < |xs| && kv < args.kvHeads
    ensures Offset(kv, args.headDim) + args.headDim <= args.KvSize()
    ensures HeadVectors(keys, |xs|, args.KvSize(), Offset(kv, args.headDim), args.headDim, t + 1)
            == KeysOf(args, weights, xs[..t + 1], kv)
    ensures HeadVectors(values, |xs|, args.KvSize(), Offset(kv, args.headDim), args.headDim, t + 1)
            == ValuesOf(args, xs[..t + 1], kv)
  {
    hide KeyHeads, ValueHeads, QueryHeads, Flatten;
    var n, w, dim := |xs|, args.KvSize(), args.headDim;
    RowInside(args.kvHeads, dim, kv);
    var loadedKeys := HeadVectors(keys, n, w, Offset(kv, dim), dim, t + 1);
    var loadedValues := HeadVectors(values, n, w, Offset(kv, dim), dim, t + 1);
    forall j | 0 <= j <= t
      ensures loadedKeys[j] == KeyHeads(args, weights, xs[j], j)[kv]
      ensures loadedValues[j] == ValueHeads(args, xs[j])[kv]
    {
      assert LoadedRow(args, weights, xs, j, Rows(queries, n, args.QSize()), Rows(keys, n, w), Rows(values, n, w));
      FlattenSlice(keys, n, w, j, KeyHeads(args, weights, xs[j], j), dim, kv);
      FlattenSlice(values, n, w, j, ValueHeads(args, xs[j]), dim, kv);
    }
  }

  method AttendHead(q: seq<Scalar>, keys: seq<Scalar>, values: seq<Scalar>, tokens: nat, kvSize: nat, kvAt: nat,
                    token: nat, logits: array<Scalar>, probabilities: array<Scalar>, attention: array<Scalar>, at: nat)
    requires |keys| == |values| == Offset(tokens, kvSize) && kvAt + |q| <= kvSize
    requires token < tokens == logits.Length == probabilities.Length
    requires logits != probabilities && logits != attention && probabilities != attention
    requires at + |q| <= attention.Length
    requires forall d :: at <= d < at + |q| ==> attention[d] == Zero
    modifies logits, probabilities, attention
    ensures attention[..] == Splice(old(attention[..]), at,
              HeadOutput(q, HeadVectors(keys, tokens, kvSize, kvAt, |q|, token + 1),
                         HeadVectors(values, tokens, kvSize, kvAt, |q|, token + 1)))
  {
    hide Logits, HeadVectors, Shifted, Normalized, Mix, MaxLogit, SumD, Splice, Offset;
    var maxLogit := ComputeLogits(q, keys, tokens, kvSize, kvAt, token, logits);
    var probabilitySum := Exponentiate(logits[..token + 1], maxLogit, probabilities);
    Divide(probabilities, token + 1, probabilitySum);
    Accumulate(probabilities[..token + 1], values, tokens, kvSize, kvAt, |q|, attention, at);
  }

  /** The head outputs so far, with the heads still to come at zero. */
  function PartlyAttended(heads: seq<seq<Scalar>>, dim: nat, done: nat): (out: seq<seq<Scalar>>)
    requires done <= |heads| && forall h :: 0 <= h < |heads| ==> |heads[h]| == dim
    ensures |out| == |heads| && forall h :: 0 <= h < |out| ==> |out[h]| == dim
  {
    heads[..done] + seq(|heads| - done, h => seq(dim, d => Zero))
  }

  lemma {:induction false} PartlyAttendedStep(heads: seq<seq<Scalar>>, dim: nat, done: nat)
    requires done < |heads| && forall h :: 0 <= h < |heads| ==> |heads[h]| == dim
    ensures PartlyAttended(heads, dim, done)[done] == seq(dim, d => Zero)
    ensures PartlyAttended(heads, dim, done + 1) == PartlyAttended(heads, dim, done)[done := heads[done]]
  {
  }

  method AttendHeads(args: FullArgs, weights: FullWeights, ghost xs: seq<seq<Scalar>>,
                     queries: seq<Scalar>, keys: seq<Scalar>, values: seq<Scalar>, token: nat,
                     logits: array<Scalar>, probabilities: array<Scalar>, attention: array<Scalar>)
    requires args.Valid() && Packed(args, xs) && FitsWeights(args, weights)
    requires Loaded(args, weights, xs, queries, keys, values)
    requires token < |xs| == args.tokens == logits.Length == probabilities.Length
    requires logits != probabilities && logits != attention && probabilities != attention
    requires attention.Length == args.QSize() == Offset(args.queryHeads, args.headDim)
    requires Packed(args, xs[..token + 1])
    requires forall d :: 0 <= d < attention.Length ==> attention[d] == Zero
    modifies logits, probabilities, attention
    ensures attention[..] == Flatten(AttendedHeads(args, weights, xs[..token + 1]), args.headDim)
  {
    hide *;
    ghost var heads := AttendedHeads(args, weights, xs[..token + 1]);
    ghost var now := PartlyAttended(heads, args.headDim, 0);
    NothingAttended(attention[..], heads, args.headDim);
    for queryHead := 0 to args.queryHeads
      invariant now == PartlyAttended(heads, args.headDim, queryHead)
      invariant attention[..] == Flatten(now, args.headDim)
    {
      PartlyAttendedStep(heads, args.headDim, queryHead);
      AttendNth(args, weights, xs, queries, keys, values, token, queryHead, logits, probabilities, attention, now);
      now := PartlyAttended(heads, args.headDim, queryHead + 1);
    }
    AllAttended(heads, args.headDim);
  }

  lemma {:induction false} AllAttended(heads: seq<seq<Scalar>>, dim: nat)
    requires forall h :: 0 <= h < |heads| ==> |heads[h]| == dim
    ensures PartlyAttended(heads, dim, |heads|) == heads
  {
  }

  lemma {:induction false} NothingAttended(flat: seq<Scalar>, heads: seq<seq<Scalar>>, dim: nat)
    requires forall h :: 0 <= h < |heads| ==> |heads[h]| == dim
    requires |flat| == Offset(|heads|, dim) && forall i :: 0 <= i < |flat| ==> flat[i] == Zero
    ensures flat == Flatten(PartlyAttended(heads, dim, 0), dim)
  {
    assert PartlyAttended(heads, dim, 0) == seq(|heads|, h => seq(dim, d => Zero));
    ZeroMatrix(flat, |heads|, dim);
    FlattenRows(flat, |heads|, dim);
  }

  lemma {:induction false} HeadReady(args: FullArgs, weights: FullWeights, xs: seq<seq<Scalar>>,
      queries: seq<Scalar>, keys: seq<Scalar>, values: seq<Scalar>, token: nat, queryHead: nat)
    requires args.Valid() && Packed(args, xs) && FitsWeights(args, weights)
    requires Loaded(args, weights, xs, queries, keys, values)
    requires token < |xs| && queryHead < args.queryHeads
    ensures Packed(args, xs[..token + 1])
    ensures
      var n, dim, w := |xs|, args.headDim, args.KvSize();
      var queryAt := Offset(token, args.QSize()) + Offset(queryHead, dim);
      var kvAt := Offset(args.KvHead(queryHead), dim);
      && |keys| == |values| == Offset(n, w)
      && queryAt + dim <= |queries| && kvAt + dim <= w
      && HeadOutput(queries[queryAt..queryAt + dim],
                    HeadVectors(keys, n, w, kvAt, dim, token + 1), HeadVectors(values, n, w, kvAt, dim, token + 1))
         == AttendedHeads(args, weights, xs[..token + 1])[queryHead]
  {
    hide QueryHeads, HeadVectors, KeysOf, ValuesOf, HeadOutput, LoadedRow, Rows;
    LoadedQuery(args, weights, xs, queries, keys, values, token, queryHead);
    LoadedKeys(args, weights, xs, queries, keys, values, token, args.KvHead(queryHead));
  }

  method AttendNth(args: FullArgs, weights: FullWeights, ghost xs: seq<seq<Scalar>>,
                   queries: seq<Scalar>, keys: seq<Scalar>, values: seq<Scalar>, token: nat, queryHead: nat,
                   logits: array<Scalar>, probabilities: array<Scalar>, attention: array<Scalar>,
                   ghost now: seq<seq<Scalar>>)
    requires args.Valid() && Packed(args, xs) && FitsWeights(args, weights)
    requires Loaded(args, weights, xs, queries, keys, values)
    requires token < |xs| == args.tokens == logits.Length == probabilities.Length
    requires logits != probabilities && logits != attention && probabilities != attention
    requires queryHead < args.queryHeads == |now|
    requires forall h :: 0 <= h < |now| ==> |now[h]| == args.headDim
    requires now[queryHead] == seq(args.headDim, d => Zero)
    requires attention[..] == Flatten(now, args.headDim)
    modifies logits, probabilities, attention
    ensures attention[..] ==
            Flatten(now[queryHead := AttendedHeads(args, weights, xs[..token + 1])[queryHead]], args.headDim)
  {
    hide *;
    var dim := args.headDim;
    var kvHead := args.KvHead(queryHead);
    HeadReady(args, weights, xs, queries, keys, values, token, queryHead);
    ghost var head := AttendedHeads(args, weights, xs[..token + 1])[queryHead];
    FlattenSetRow(now, dim, queryHead, head);
    var w := args.KvSize();
    var queryAt, at := Offset(token, args.QSize()) + Offset(queryHead, dim), Offset(queryHead, dim);
    assert forall d :: at <= d < at + dim ==> attention[d] == attention[..][at..at + dim][d - at];
    AttendHead(queries[queryAt..queryAt + dim], keys, values, args.tokens, w, Offset(kvHead, dim),
               token, logits, probabilities, attention, at);
  }

  method GateInPlace(attention: array<Scalar>, gate: seq<Scalar>)
    requires attention.Length == |gate|
    modifies attention
    ensures attention[..] == Gated(old(attention[..]), gate)
  {
    ghost var was := attention[..];
    ghost var target := Gated(was, gate);
    for c := 0 to |gate|
      invariant forall k :: 0 <= k < |gate| ==> attention[k] == if k < c then target[k] else was[k]
    {
      attention[c] := Mul(attention[c], Sigmoid(gate[c]));
    }
  }

  lemma {:induction false} ColumnCell(raw: seq<Scalar>, n: nat, w: nat, c: nat, r: nat)
    requires |raw| == Offset(n, w) && r < n && c < w
    ensures Offset(r, w) + c < |raw|
    ensures Column(Rows(raw, n, w), w, c)[r] == raw[Offset(r, w) + c]
  {
    RowInside(n, w, r);
    assert Column(Rows(raw, n, w), w, c)[r] == Row(raw, n, w, r)[c];
  }

  method ProjectCell(x: seq<Scalar>, raw: seq<Scalar>, w: nat, o: nat) returns (y: Scalar)
    requires |raw| == Offset(|x|, w) && o < w
    ensures y == ToFloat(DotD(x, Column(Rows(raw, |x|, w), w, o), |x|))
  {
    hide Column, Rows, Offset;
    ghost var column := Column(Rows(raw, |x|, w), w, o);
    var sum := Zero;
    for i := 0 to |x|
      invariant sum == DotD(x, column, i)
    {
      ColumnCell(raw, |x|, w, o, i);
      sum := AddD(sum, MulD(x[i], raw[Offset(i, w) + o]));
    }
    y := ToFloat(sum);
  }

  method ProjectInto(x: seq<Scalar>, raw: seq<Scalar>, w: nat, output: array<Scalar>, at: nat)
    requires |raw| == Offset(|x|, w) && at + w <= output.Length
    modifies output
    ensures output[..] == Splice(old(output[..]), at, ProjectRow(x, Rows(raw, |x|, w), w))
  {
    ghost var was := output[..];
    ghost var target := ProjectRow(x, Rows(raw, |x|, w), w);
    for o := 0 to w
      invariant forall k :: 0 <= k < output.Length ==> output[k] == if at <= k < at + o then target[k - at] else was[k]
    {
      output[at + o] := ProjectCell(x, raw, w, o);
    }
    ByCells(output[..], was, at, target);
  }

  method AttendToken(args: FullArgs, weights: FullWeights, input: seq<Scalar>,
                     queries: seq<Scalar>, keys: seq<Scalar>, values: seq<Scalar>, token: nat,
                     logits: array<Scalar>, probabilities: array<Scalar>, attention: array<Scalar>, output: array<Scalar>)
    requires args.Valid() && FitsWeights(args, weights) && token < args.tokens
    requires |input| == Offset(args.tokens, args.Stride())
    requires Loaded(args, weights, Rows(input, args.tokens, args.Stride()), queries, keys, values)
    requires args.tokens == logits.Length == probabilities.Length
    requires logits != probabilities && logits != attention && probabilities != attention
    requires output != logits && output != probabilities && output != attention
    requires attention.Length == args.hiddenSize && output.Length == Offset(args.tokens, args.hiddenSize)
    modifies logits, probabilities, attention, output
    ensures Rows(output[..], args.tokens, args.hiddenSize)
            == old(Rows(output[..], args.tokens, args.hiddenSize))
               [token := AttendLast(args, weights, Rows(input, args.tokens, args.Stride())[..token + 1])]
  {
    hide *;
    ghost var xs := Rows(input, args.tokens, args.Stride());
    TokenShapes(args, weights, input, token);
    Fill(attention, Zero);
    AttendHeads(args, weights, xs, queries, keys, values, token, logits, probabilities, attention);
    var gateAt := Offset(token, args.Stride()) + args.QSize() + args.KvSize() + args.KvSize();
    GateInPlace(attention, input[gateAt..gateAt + args.hiddenSize]);
    SetRow(output[..], args.tokens, args.hiddenSize, token, AttendLast(args, weights, xs[..token + 1]));
    ProjectInto(attention[..], weights.output, args.hiddenSize, output, Offset(token, args.hiddenSize));
  }

  lemma {:induction false} TokenShapes(args: FullArgs, weights: FullWeights, input: seq<Scalar>, token: nat)
    requires args.Valid() && FitsWeights(args, weights) && token < args.tokens
    requires |input| == Offset(args.tokens, args.Stride())
    ensures args.QSize() == args.hiddenSize == Offset(args.queryHeads, args.headDim)
    ensures |weights.output| == Offset(args.hiddenSize, args.hiddenSize)
    ensures
      var xs := Rows(input, args.tokens, args.Stride());
      var gateAt := Offset(token, args.Stride()) + args.QSize() + args.KvSize() + args.KvSize();
      && Packed(args, xs) && Packed(args, xs[..token + 1])
      && gateAt + args.hiddenSize <= |input|
      && |input[gateAt..gateAt + args.hiddenSize]| == args.hiddenSize
      && AttendLast(args, weights, xs[..token + 1])
         == ProjectRow(Gated(Flatten(AttendedHeads(args, weights, xs[..token + 1]), args.headDim),
                             input[gateAt..gateAt + args.hiddenSize]),
                       Rows(weights.output, args.hiddenSize, args.hiddenSize), args.hiddenSize)
  {
    hide AttendedHeads, ProjectRow, Gated, Flatten;
    var n, w := args.tokens, args.Stride();
    RowInside(n, w, token);
    var at := args.QSize() + args.KvSize() + args.KvSize();
    SubSlice(input, Offset(token, w), w, at, args.hiddenSize);
    assert Gate(args, Rows(input, n, w)[token]) == Row(input, n, w, token)[at..at + args.hiddenSize];
  }

  /** The mixer. Shape mismatches are rejected; otherwise every output row is the causal specification. */
  method GatedFullAttention(input: seq<Scalar>, output: array<Scalar>, weights: FullWeights, args: FullArgs)
    returns (ok: bool)
    modifies output
    ensures ok <==> args.Valid() && FitsWeights(args, weights)
                    && |input| == Offset(args.tokens, args.Stride())
                    && output.Length == Offset(args.tokens, args.hiddenSize)
    ensures ok ==> Packed(args, Rows(input, args.tokens, args.Stride()))
    ensures ok ==> Rows(output[..], args.tokens, args.hiddenSize)
                   == AttentionRows(args, weights, Rows(input, args.tokens, args.Stride()))
    ensures !ok ==> output[..] == old(output[..])
  {
    if !args.Valid() || |input| != Offset(args.tokens, args.Stride())
       || output.Length != Offset(args.tokens, args.hiddenSize) || !FitsWeights(args, weights) {
      return false;
    }
    AttendTokens(input, output, weights, args);
    ok := true;
  }

  method AttendTokens(input: seq<Scalar>, output: array<Scalar>, weights: FullWeights, args: FullArgs)
    requires args.Valid() && FitsWeights(args, weights)
    requires |input| == Offset(args.tokens, args.Stride())
    requires output.Length == Offset(args.tokens, args.hiddenSize)
    modifies output
    ensures Rows(output[..], args.tokens, args.hiddenSize)
            == AttentionRows(args, weights, Rows(input, args.tokens, args.Stride()))
  {
    hide AttendLast, Loaded, FullArgs.Valid, FitsWeights, Rows;
    ghost var xs := Rows(input, args.tokens, args.Stride());
    var queries, keys, values := LoadTokens(args, weights, input);
    var attention := new Scalar[args.hiddenSize](_ => Zero);
    var logits := new Scalar[args.tokens](_ => Zero);
    var probabilities := new Scalar[args.tokens](_ => Zero);
    for token := 0 to args.tokens
      invariant forall t :: 0 <= t < token ==>
        Rows(output[..], args.tokens, args.hiddenSize)[t] == AttendLast(args, weights, xs[..t + 1])
    {
      AttendToken(args, weights, input, queries, keys, values, token, logits, probabilities, attention, output);
    }
  }
}
