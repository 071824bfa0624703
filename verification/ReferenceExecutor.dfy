/** `qwen35_execute_model`: embedding copy, layer loop over one hidden buffer, final logits. */
module ReferenceExecutor {
  import opened Prelude
  import opened Matrix
  import opened Scalars
  import opened Kernels
  import opened Attention
  import opened FullAttention
  import opened DeltaNet
  import opened DeltaLoops
  import opened DeltaStep
  import opened Qwen35Config
  import opened ReferenceNetwork

  // ----- 32-bit widths -----

  /** Products of two `uint32_t` are taken in 32 bits before they widen. */
  function Mul32(a: nat, b: nat): nat {
    (a * b) % (U32_MAX + 1)
  }

  lemma {:induction false} WidthsDoNotWrap(c: Config)
    requires ValidConfig(c)
    ensures Mul32(c.linearKeyHeads, c.linearHeadDim) == DeltaArgsOf(c, 1).KeySize()
    ensures Mul32(c.linearValueHeads, c.linearHeadDim) == ValueWidth(c) == InnerSize(c)
    ensures Mul32(c.fullHeads, c.fullHeadDim) == QueryWidth(c) == c.hiddenSize
    ensures Mul32(c.fullKvHeads, c.fullHeadDim) == KvWidth(c) <= c.hiddenSize
    ensures DeltaArgsOf(c, 1).KeySize() <= ValueWidth(c)
  {
    hide Offset;
    OffsetIsProduct(c.linearKeyHeads, c.linearHeadDim);
    OffsetIsProduct(c.linearValueHeads, c.linearHeadDim);
    OffsetIsProduct(c.fullHeads, c.fullHeadDim);
    OffsetIsProduct(c.fullKvHeads, c.fullHeadDim);
    MulLeDivisor(c.linearValueHeads, c.linearKeyHeads, c.linearHeadDim);
    MulLeDivisor(c.fullHeads, c.fullKvHeads, c.fullHeadDim);
  }

  lemma {:induction false} MulLeDivisor(n: nat, d: nat, w: nat)
    requires 0 < n && 0 < d && n % d == 0
    ensures d * w <= n * w
  {
    assert d <= n;
    MulLe(d, n, w);
  }

  // ----- the 64-bit size checks of the two mixers -----

  /** Every `checked_mul`/`checked_add` of `GatedDeltaReferenceState` and the delta prefill. */
  predicate DeltaSizesFit(args: DeltaArgs)
    requires args.convWidth > 0
  {
    && args.Stride() <= U64_MAX && args.ConvDim() <= U64_MAX
    && Offset(args.ConvDim(), args.convWidth) <= U64_MAX
    && Offset(args.ConvDim(), args.History()) <= U64_MAX
    && Offset(args.ValueSize(), args.keyDim) <= U64_MAX
    && Offset(args.tokens, args.Stride()) <= U64_MAX
    && Offset(args.tokens, args.hiddenSize) <= U64_MAX
  }

  /** Every size check of the full-attention mixer. */
  predicate FullSizesFit(args: FullArgs) {
    && args.Stride() <= U64_MAX
    && Offset(args.hiddenSize, args.hiddenSize) <= U64_MAX
    && Offset(args.tokens, args.QSize()) <= U64_MAX
    && Offset(args.tokens, args.KvSize()) <= U64_MAX
    && Offset(args.tokens, args.Stride()) <= U64_MAX
    && Offset(args.tokens, args.hiddenSize) <= U64_MAX
  }

  predicate MixerSizesFit(c: Config, w: MixerWeights, rows: nat) {
    match w
    case FullMixer(_) => FullSizesFit(FullArgsOf(c, rows))
    case LinearMixer(_) => c.convolutionWidth > 0 && DeltaSizesFit(DeltaArgsOf(c, rows))
  }

  // ----- packing -----

  /** Four rows copied one after another into a destination stretch. */
  method AppendFour(a: seq<Scalar>, b: seq<Scalar>, d: seq<Scalar>, e: seq<Scalar>, packed: array<Scalar>, at: nat)
    requires at + |a| + |b| + |d| + |e| <= packed.Length
    modifies packed
    ensures packed[..] == Splice(old(packed[..]), at, a + b + d + e)
  {
    hide Splice;
    ghost var was := packed[..];
    JoinSplices(was, at, a, b);
    JoinSplices(was, at, a + b, d);
    JoinSplices(was, at, a + b + d, e);
    CopySpan(a, packed, at);
    CopySpan(b, packed, at + |a|);
    CopySpan(d, packed, at + |a| + |b|);
    CopySpan(e, packed, at + |a| + |b| + |d|);
  }

  lemma {:induction false} JoinSplices<T>(was: seq<T>, at: nat, a: seq<T>, b: seq<T>)
    requires at + |a| + |b| <= |was|
    ensures Splice(Splice(was, at, a), at + |a|, b) == Splice(was, at, a + b)
  {
  }

  method PackLinearNth(c: Config, w: LinearMixerWeights, ghost xs: seq<seq<Scalar>>, t: nat, packed: array<Scalar>,
                       qkv: seq<Scalar>, beta: seq<Scalar>, alpha: seq<Scalar>, gate: seq<Scalar>)
    requires LinearFits(c, w) && t < |xs| && forall k :: 0 <= k < |xs| ==> |xs[k]| == c.hiddenSize
    requires IsLinear(qkv, xs, c.hiddenSize, w.qkv, QkvWidth(c))
    requires IsLinear(beta, xs, c.hiddenSize, w.beta, c.linearValueHeads)
    requires IsLinear(alpha, xs, c.hiddenSize, w.alpha, c.linearValueHeads)
    requires IsLinear(gate, xs, c.hiddenSize, w.gate, ValueWidth(c))
    requires packed.Length == Offset(|xs|, DeltaArgsOf(c, 1).Stride())
    modifies packed
    ensures Rows(packed[..], |xs|, DeltaArgsOf(c, 1).Stride())
            == old(Rows(packed[..], |xs|, DeltaArgsOf(c, 1).Stride()))[t := PackLinearRow(c, w, xs[t])]
  {
    hide LinearRow, Rows, Offset, Splice, LinearFits;
    var n := packed.Length;
    LinearStretches(c, w, xs, t, qkv, beta, alpha, gate);
    SetRow(packed[..], |xs|, DeltaArgsOf(c, 1).Stride(), t, PackLinearRow(c, w, xs[t]));
    AppendFour(qkv[Offset(t, QkvWidth(c))..Offset(t, QkvWidth(c)) + QkvWidth(c)],
               beta[Offset(t, c.linearValueHeads)..Offset(t, c.linearValueHeads) + c.linearValueHeads],
               alpha[Offset(t, c.linearValueHeads)..Offset(t, c.linearValueHeads) + c.linearValueHeads],
               gate[Offset(t, ValueWidth(c))..Offset(t, ValueWidth(c)) + ValueWidth(c)],
               packed, Offset(t, DeltaArgsOf(c, 1).Stride()));
  }

  /** `y` is the flat product of the rows of `xs` with a raw weight. */
  ghost predicate IsLinear(y: seq<Scalar>, xs: seq<seq<Scalar>>, w: nat, raw: seq<Scalar>, width: nat)
    requires forall k :: 0 <= k < |xs| ==> |xs[k]| == w
  {
    && |raw| == Offset(width, w) && |y| == Offset(|xs|, width)
    && Rows(y, |xs|, width) == LinearRows(xs, w, Rows(raw, width, w))
  }

  lemma {:induction false} LinearStretch(y: seq<Scalar>, xs: seq<seq<Scalar>>, w: nat, raw: seq<Scalar>, width: nat, t: nat)
    requires t < |xs| && forall k :: 0 <= k < |xs| ==> |xs[k]| == w
    requires IsLinear(y, xs, w, raw, width)
    ensures Offset(t, width) + width <= |y|
    ensures y[Offset(t, width)..Offset(t, width) + width] == LinearRow(xs[t], Rows(raw, width, w))
  {
    hide LinearRow;
    RowInside(|xs|, width, t);
    assert Rows(y, |xs|, width)[t] == Row(y, |xs|, width, t);
  }

  lemma {:induction false} LinearStretches(c: Config, w: LinearMixerWeights, xs: seq<seq<Scalar>>, t: nat,
      qkv: seq<Scalar>, beta: seq<Scalar>, alpha: seq<Scalar>, gate: seq<Scalar>)
    requires LinearFits(c, w) && t < |xs| && forall k :: 0 <= k < |xs| ==> |xs[k]| == c.hiddenSize
    requires IsLinear(qkv, xs, c.hiddenSize, w.qkv, QkvWidth(c))
    requires IsLinear(beta, xs, c.hiddenSize, w.beta, c.linearValueHeads)
    requires IsLinear(alpha, xs, c.hiddenSize, w.alpha, c.linearValueHeads)
    requires IsLinear(gate, xs, c.hiddenSize, w.gate, ValueWidth(c))
    ensures Offset(t, QkvWidth(c)) + QkvWidth(c) <= |qkv|
    ensures Offset(t, c.linearValueHeads) + c.linearValueHeads <= |beta|
    ensures Offset(t, c.linearValueHeads) + c.linearValueHeads <= |alpha|
    ensures Offset(t, ValueWidth(c)) + ValueWidth(c) <= |gate|
    ensures PackLinearRow(c, w, xs[t])
            == qkv[Offset(t, QkvWidth(c))..Offset(t, QkvWidth(c)) + QkvWidth(c)]
               + beta[Offset(t, c.linearValueHeads)..Offset(t, c.linearValueHeads) + c.linearValueHeads]
               + alpha[Offset(t, c.linearValueHeads)..Offset(t, c.linearValueHeads) + c.linearValueHeads]
               + gate[Offset(t, ValueWidth(c))..Offset(t, ValueWidth(c)) + ValueWidth(c)]
    ensures Offset(t, DeltaArgsOf(c, 1).Stride()) + DeltaArgsOf(c, 1).Stride() <= Offset(|xs|, DeltaArgsOf(c, 1).Stride())
    ensures DeltaArgsOf(c, 1).Stride() == QkvWidth(c) + c.linearValueHeads + c.linearValueHeads + ValueWidth(c)
  {
    hide LinearRow, Rows, IsLinear;
    LinearStretch(qkv, xs, c.hiddenSize, w.qkv, QkvWidth(c), t);
    LinearStretch(beta, xs, c.hiddenSize, w.beta, c.linearValueHeads, t);
    LinearStretch(alpha, xs, c.hiddenSize, w.alpha, c.linearValueHeads, t);
    LinearStretch(gate, xs, c.hiddenSize, w.gate, ValueWidth(c), t);
    RowInside(|xs|, DeltaArgsOf(c, 1).Stride(), t);
  }

  // ----- taking interleaved query and gate heads apart -----

  method SplitHead(queryGate: seq<Scalar>, from: nat, dim: nat, packed: array<Scalar>, qAt: nat, gAt: nat)
    requires from + dim + dim <= |queryGate| && qAt + dim <= gAt && gAt + dim <= packed.Length
    modifies packed
    ensures packed[..] == Splice(Splice(old(packed[..]), qAt, queryGate[from..from + dim]),
                                 gAt, queryGate[from + dim..from + dim + dim])
  {
    hide Splice;
    ghost var was := packed[..];
    ghost var q, g := queryGate[from..from + dim], queryGate[from + dim..from + dim + dim];
    for d := 0 to dim
      invariant forall k :: 0 <= k < packed.Length ==>
        packed[k] == if qAt <= k < qAt + d then q[k - qAt] else if gAt <= k < gAt + d then g[k - gAt] else was[k]
    {
      packed[qAt + d] := queryGate[from + d];
      packed[gAt + d] := queryGate[from + dim + d];
    }
    ByTwoCells(packed[..], was, qAt, q, gAt, g);
  }

  lemma {:induction false} ByTwoCells<T>(now: seq<T>, was: seq<T>, at: nat, a: seq<T>, bAt: nat, b: seq<T>)
    requires |now| == |was| && at + |a| <= bAt && bAt + |b| <= |was|
    requires forall k :: 0 <= k < |now| ==>
      now[k] == if at <= k < at + |a| then a[k - at] else if bAt <= k < bAt + |b| then b[k - bAt] else was[k]
    ensures now == Splice(Splice(was, at, a), bAt, b)
  {
    ByCells(Splice(was, at, a), was, at, a);
    ByCells(now, Splice(was, at, a), bAt, b);
  }

  lemma {:induction false} SplitStep<T>(was: seq<T>, qAt: nat, qs: seq<seq<T>>, gAt: nat, gs: seq<seq<T>>,
                                        w: nat, h: nat, q: seq<T>, g: seq<T>)
    requires h < |qs| == |gs| && |q| == |g| == w
    requires forall k :: 0 <= k < |qs| ==> |qs[k]| == w && |gs[k]| == w
    requires qAt + Offset(|qs|, w) <= gAt && gAt + Offset(|gs|, w) <= |was|
    ensures Offset(h, w) + w <= Offset(|qs|, w)
    ensures
      var s := Splice(Splice(was, qAt, Flatten(qs, w)), gAt, Flatten(gs, w));
      Splice(Splice(s, qAt + Offset(h, w), q), gAt + Offset(h, w), g)
      == Splice(Splice(was, qAt, Flatten(qs[h := q], w)), gAt, Flatten(gs[h := g], w))
  {
    hide Splice, Flatten;
    var a := Splice(was, qAt, Flatten(qs, w));
    var a' := Splice(was, qAt, Flatten(qs[h := q], w));
    SpliceFlatten(was, qAt, qs, w, h, q);
    SpliceApart(a, qAt + Offset(h, w), q, gAt, Flatten(gs, w));
    SpliceFlatten(a', gAt, gs, w, h, g);
  }

  method SplitHeads(queryGate: seq<Scalar>, from: nat, heads: nat, dim: nat, packed: array<Scalar>, qAt: nat, gAt: nat)
    requires from + Offset(heads, dim + dim) <= |queryGate|
    requires qAt + Offset(heads, dim) <= gAt && gAt + Offset(heads, dim) <= packed.Length
    modifies packed
    ensures
      var row := queryGate[from..from + Offset(heads, dim + dim)];
      packed[..] == Splice(Splice(old(packed[..]), qAt, QueryPart(row, heads, dim)), gAt, GatePart(row, heads, dim))
  {
    hide Splice, Flatten, Rows, Offset, QueryPart, GatePart;
    ghost var row := queryGate[from..from + Offset(heads, dim + dim)];
    ghost var was := packed[..];
    ghost var size := Offset(heads, dim);
    ghost var qs, gs := Rows(was[qAt..qAt + size], heads, dim), Rows(was[gAt..gAt + size], heads, dim);
    SplitStart(was, qAt, gAt, heads, dim);
    for head := 0 to heads
      invariant |qs| == |gs| == heads && forall k :: 0 <= k < heads ==> |qs[k]| == dim && |gs[k]| == dim
      invariant forall k :: 0 <= k < head ==> qs[k] == HeadHalf(row, heads, dim, k, 0) && gs[k] == HeadHalf(row, heads, dim, k, dim)
      invariant packed[..] == Splice(Splice(was, qAt, Flatten(qs, dim)), gAt, Flatten(gs, dim))
    {
      ghost var q, g := HeadHalf(row, heads, dim, head, 0), HeadHalf(row, heads, dim, head, dim);
      SplitStep(was, qAt, qs, gAt, gs, dim, head, q, g);
      HeadHalves(queryGate, from, heads, dim, head);
      SplitHead(queryGate, from + Offset(head, dim + dim), dim, packed, qAt + Offset(head, dim), gAt + Offset(head, dim));
      qs, gs := qs[head := q], gs[head := g];
    }
    SplitEnd(row, heads, dim, qs, gs);
  }

  /** The half of head `h` that starts `skip` into it. */
  function HeadHalf(row: seq<Scalar>, heads: nat, dim: nat, h: nat, skip: nat): (half: seq<Scalar>)
    requires |row| == Offset(heads, dim + dim) && h < heads && skip <= dim
    ensures |half| == dim
  {
    Row(row, heads, dim + dim, h)[skip..skip + dim]
  }

  lemma {:induction false} HeadHalves(queryGate: seq<Scalar>, from: nat, heads: nat, dim: nat, h: nat)
    requires from + Offset(heads, dim + dim) <= |queryGate| && h < heads
    ensures from + Offset(h, dim + dim) + dim + dim <= |queryGate|
    ensures
      var row := queryGate[from..from + Offset(heads, dim + dim)];
      var at := from + Offset(h, dim + dim);
      && HeadHalf(row, heads, dim, h, 0) == queryGate[at..at + dim]
      && HeadHalf(row, heads, dim, h, dim) == queryGate[at + dim..at + dim + dim]
  {
    hide Offset;
    var size := Offset(heads, dim + dim);
    RowInside(heads, dim + dim, h);
    SubSlice(queryGate, from, size, Offset(h, dim + dim), dim + dim);
    var at := from + Offset(h, dim + dim);
    SubSlice(queryGate, at, dim + dim, 0, dim);
    SubSlice(queryGate, at, dim + dim, dim, dim);
  }

  lemma {:induction false} SplitStart(was: seq<Scalar>, qAt: nat, gAt: nat, heads: nat, dim: nat)
    requires qAt + Offset(heads, dim) <= gAt && gAt + Offset(heads, dim) <= |was|
    ensures
      var size := Offset(heads, dim);
      && |was[qAt..qAt + size]| == |was[gAt..gAt + size]| == size
      && Splice(Splice(was, qAt, Flatten(Rows(was[qAt..qAt + size], heads, dim), dim)),
                gAt, Flatten(Rows(was[gAt..gAt + size], heads, dim), dim)) == was
  {
    hide Splice, Rows, Flatten;
    var size := Offset(heads, dim);
    FlattenRows(was[qAt..qAt + size], heads, dim);
    FlattenRows(was[gAt..gAt + size], heads, dim);
    JoinSplice(was, was, qAt, was[qAt..qAt + size]);
    JoinSplice(was, was, gAt, was[gAt..gAt + size]);
  }

  lemma {:induction false} SplitEnd(row: seq<Scalar>, heads: nat, dim: nat, qs: seq<seq<Scalar>>, gs: seq<seq<Scalar>>)
    requires |row| == Offset(heads, dim + dim) && |qs| == |gs| == heads
    requires forall k :: 0 <= k < heads ==> qs[k] == HeadHalf(row, heads, dim, k, 0) && gs[k] == HeadHalf(row, heads, dim, k, dim)
    ensures forall k :: 0 <= k < heads ==> |qs[k]| == dim && |gs[k]| == dim
    ensures Flatten(qs, dim) == QueryPart(row, heads, dim)
    ensures Flatten(gs, dim) == GatePart(row, heads, dim)
  {
    hide Flatten, Row;
    var qs' := seq(heads, h requires 0 <= h < heads => Row(row, heads, dim + dim, h)[..dim]);
    var gs' := seq(heads, h requires 0 <= h < heads => Row(row, heads, dim + dim, h)[dim..]);
    forall k | 0 <= k < heads
      ensures qs[k] == qs'[k] && gs[k] == gs'[k]
    {
      var head := Row(row, heads, dim + dim, k);
      assert head[0..dim] == head[..dim] && head[dim..dim + dim] == head[dim..];
    }
    assert qs == qs' && gs == gs';
  }

  // ----- packing a full-attention row -----

  method PackFullNth(c: Config, w: FullMixerWeights, ghost xs: seq<seq<Scalar>>, t: nat, packed: array<Scalar>,
                     queryGate: seq<Scalar>, key: seq<Scalar>, value: seq<Scalar>)
    requires FullFits(c, w) && t < |xs| && forall k :: 0 <= k < |xs| ==> |xs[k]| == c.hiddenSize
    requires IsLinear(queryGate, xs, c.hiddenSize, w.query, QueryWidth(c) + QueryWidth(c))
    requires IsLinear(key, xs, c.hiddenSize, w.key, KvWidth(c))
    requires IsLinear(value, xs, c.hiddenSize, w.value, KvWidth(c))
    requires packed.Length == Offset(|xs|, FullArgsOf(c, 1).Stride())
    modifies packed
    ensures Rows(packed[..], |xs|, FullArgsOf(c, 1).Stride())
            == old(Rows(packed[..], |xs|, FullArgsOf(c, 1).Stride()))[t := PackFullRow(c, w, xs[t])]
  {
    hide *;
    var qw, kv, stride := QueryWidth(c), KvWidth(c), FullArgsOf(c, 1).Stride();
    ghost var was := packed[..];
    FullStretches(c, w, xs, t, queryGate, key, value);
    var at := Offset(t, stride);
    SetRow(packed[..], |xs|, stride, t, PackFullRow(c, w, xs[t]));
    ghost var row := queryGate[Offset(t, qw + qw)..Offset(t, qw + qw) + qw + qw];
    ArrangeFour(was, at, QueryPart(row, c.fullHeads, c.fullHeadDim), key[Offset(t, kv)..Offset(t, kv) + kv],
                value[Offset(t, kv)..Offset(t, kv) + kv], GatePart(row, c.fullHeads, c.fullHeadDim));
    SplitHeads(queryGate, Offset(t, qw + qw), c.fullHeads, c.fullHeadDim, packed, at, at + qw + kv + kv);
    CopySpan(key[Offset(t, kv)..Offset(t, kv) + kv], packed, at + qw);
    CopySpan(value[Offset(t, kv)..Offset(t, kv) + kv], packed, at + qw + kv);
  }

  lemma {:induction false} ArrangeFour<T>(was: seq<T>, at: nat, q: seq<T>, k: seq<T>, v: seq<T>, g: seq<T>)
    requires at + |q| + |k| + |v| + |g| <= |was|
    ensures
      var gAt := at + |q| + |k| + |v|;
      var s := Splice(Splice(was, at, q), gAt, g);
      Splice(Splice(s, at + |q|, k), at + |q| + |k|, v) == Splice(was, at, q + k + v + g)
  {
    hide Splice;
    var gAt := at + |q| + |k| + |v|;
    var a := Splice(was, at, q);
    var b := Splice(a, at + |q|, k);
    SpliceApart(a, at + |q|, k, gAt, g);
    SpliceApart(b, at + |q| + |k|, v, gAt, g);
    JoinSplices(was, at, q, k);
    JoinSplices(was, at, q + k, v);
    JoinSplices(was, at, q + k + v, g);
  }

  lemma {:induction false} FullStretches(c: Config, w: FullMixerWeights, xs: seq<seq<Scalar>>, t: nat,
      queryGate: seq<Scalar>, key: seq<Scalar>, value: seq<Scalar>)
    requires FullFits(c, w) && t < |xs| && forall k :: 0 <= k < |xs| ==> |xs[k]| == c.hiddenSize
    requires IsLinear(queryGate, xs, c.hiddenSize, w.query, QueryWidth(c) + QueryWidth(c))
    requires IsLinear(key, xs, c.hiddenSize, w.key, KvWidth(c))
    requires IsLinear(value, xs, c.hiddenSize, w.value, KvWidth(c))
    ensures
      var qw, kv, stride := QueryWidth(c), KvWidth(c), FullArgsOf(c, 1).Stride();
      && Offset(t, qw + qw) + qw + qw <= |queryGate|
      && Offset(t, kv) + kv <= |key| && Offset(t, kv) + kv <= |value|
      && qw + qw == Offset(c.fullHeads, c.fullHeadDim + c.fullHeadDim) && qw == Offset(c.fullHeads, c.fullHeadDim)
      && stride == qw + kv + kv + qw
      && Offset(t, stride) + stride <= Offset(|xs|, stride)
    ensures
      var qw, kv := QueryWidth(c), KvWidth(c);
      var row := queryGate[Offset(t, qw + qw)..Offset(t, qw + qw) + qw + qw];
      && |row| == Offset(c.fullHeads, c.fullHeadDim + c.fullHeadDim)
      && PackFullRow(c, w, xs[t])
         == QueryPart(row, c.fullHeads, c.fullHeadDim) + key[Offset(t, kv)..Offset(t, kv) + kv]
            + value[Offset(t, kv)..Offset(t, kv) + kv] + GatePart(row, c.fullHeads, c.fullHeadDim)
  {
    hide LinearRow, Rows, IsLinear, QueryPart, GatePart;
    var qw, kv := QueryWidth(c), KvWidth(c);
    LinearStretch(queryGate, xs, c.hiddenSize, w.query, qw + qw, t);
    LinearStretch(key, xs, c.hiddenSize, w.key, kv, t);
    LinearStretch(value, xs, c.hiddenSize, w.value, kv, t);
    OffsetDouble(c.fullHeads, c.fullHeadDim);
    RowInside(|xs|, FullArgsOf(c, 1).Stride(), t);
  }

  // ----- the two mixers -----

  method LinearOver(normalized: seq<Scalar>, rows: nat, h: nat, raw: seq<Scalar>, width: nat) returns (r: Result<seq<Scalar>>)
    requires |normalized| == Offset(rows, h)
    ensures r.Ok? <==> |raw| == Offset(width, h)
    ensures r.Ok? ==> IsLinear(r.value, Rows(normalized, rows, h), h, raw, width)
  {
    hide LinearRows, Rows, Offset;
    r := Linear(normalized, rows, h, raw, width);
  }

  method RunLinearMixer(c: Config, w: LinearMixerWeights, normalized: seq<Scalar>, rows: nat) returns (r: Result<seq<Scalar>>)
    requires ValidConfig(c) && rows > 0 && |normalized| == Offset(rows, c.hiddenSize)
    ensures r.Ok? <==> LinearFits(c, w) && DeltaSizesFit(DeltaArgsOf(c, rows))
    ensures r.Ok? ==> |r.value| == Offset(rows, c.hiddenSize)
    ensures r.Ok? ==> Rows(r.value, rows, c.hiddenSize) == LinearMixerRows(c, w, Rows(normalized, rows, c.hiddenSize))
  {
    hide *;
    WidthsDoNotWrap(c);
    var h := c.hiddenSize;
    var keyWidth, valueWidth := Mul32(c.linearKeyHeads, c.linearHeadDim), Mul32(c.linearValueHeads, c.linearHeadDim);
    var qkvWidth := keyWidth + keyWidth + valueWidth;
    LinearMixerWidths(c, w, rows);
    var qkv := LinearOver(normalized, rows, h, w.qkv, qkvWidth);
    var beta := LinearOver(normalized, rows, h, w.beta, c.linearValueHeads);
    var alpha := LinearOver(normalized, rows, h, w.alpha, c.linearValueHeads);
    var gate := LinearOver(normalized, rows, h, w.gate, valueWidth);
    var args := DeltaArgsOf(c, rows);
    if qkv.Err? || beta.Err? || alpha.Err? || gate.Err? || !args.Valid() || !DeltaSizesFit(args)
       || !FitsDelta(args, w.delta) || |w.output| != Offset(h, valueWidth) {
      return Err;
    }
    ghost var xs := Rows(normalized, rows, h);
    var packed := PackLinearRows(c, w, rows, xs, qkv.value, beta.value, alpha.value, gate.value);
    var state := new GatedDeltaState(args);
    var deltaOutput := new Scalar[Offset(rows, h)](_ => Zero);
    var ok := Prefill(args, w.delta, packed[..], deltaOutput, state);
    LinearMixerEquation(c, w, xs);
    r := Linear(deltaOutput[..], rows, valueWidth, w.output, h);
  }

  lemma {:induction false} LinearMixerWidths(c: Config, w: LinearMixerWeights, rows: nat)
    requires ValidConfig(c) && rows > 0
    ensures
      var args := DeltaArgsOf(c, rows);
      && args.tokens == rows && args.hiddenSize == c.hiddenSize && args.convWidth > 0
      && args.Stride() == DeltaArgsOf(c, 1).Stride()
      && QkvWidth(c) == DeltaArgsOf(c, 1).KeySize() + DeltaArgsOf(c, 1).KeySize() + ValueWidth(c)
      && args.Valid() == DeltaArgsOf(c, 1).Valid()
      && FitsDelta(args, w.delta) == FitsDelta(DeltaArgsOf(c, 1), w.delta)
      && (args.Valid() ==> ValueWidth(c) == c.hiddenSize)
    ensures LinearFits(c, w) <==>
      && DeltaArgsOf(c, 1).Valid()
      && |w.qkv| == Offset(QkvWidth(c), c.hiddenSize)
      && |w.beta| == Offset(c.linearValueHeads, c.hiddenSize)
      && |w.alpha| == Offset(c.linearValueHeads, c.hiddenSize)
      && |w.gate| == Offset(ValueWidth(c), c.hiddenSize)
      && FitsDelta(DeltaArgsOf(c, 1), w.delta)
      && |w.output| == Offset(c.hiddenSize, ValueWidth(c))
  {
  }

  lemma {:induction false} LinearMixerEquation(c: Config, w: LinearMixerWeights, xs: seq<seq<Scalar>>)
    requires LinearFits(c, w) && |xs| > 0 && forall t :: 0 <= t < |xs| ==> |xs[t]| == c.hiddenSize
    ensures
      var args := DeltaArgsOf(c, |xs|);
      && args.Valid() && FitsDelta(args, w.delta) && Fits(args, ZeroMemory(args)) && PackedRows(args, PackLinear(c, w, xs))
      && ValueWidth(c) == c.hiddenSize && |w.output| == Offset(c.hiddenSize, c.hiddenSize)
      && LinearMixerRows(c, w, xs)
         == LinearRows(RunRows(args, w.delta, ZeroMemory(args), PackLinear(c, w, xs)), c.hiddenSize,
                       Rows(w.output, c.hiddenSize, c.hiddenSize))
  {
    hide RunRows, PackLinearRow, LinearRow;
  }

  method PackLinearRows(c: Config, w: LinearMixerWeights, rows: nat, ghost xs: seq<seq<Scalar>>,
                        qkv: seq<Scalar>, beta: seq<Scalar>, alpha: seq<Scalar>, gate: seq<Scalar>)
    returns (packed: array<Scalar>)
    requires LinearFits(c, w) && forall k :: 0 <= k < |xs| ==> |xs[k]| == c.hiddenSize
    requires IsLinear(qkv, xs, c.hiddenSize, w.qkv, QkvWidth(c))
    requires IsLinear(beta, xs, c.hiddenSize, w.beta, c.linearValueHeads)
    requires IsLinear(alpha, xs, c.hiddenSize, w.alpha, c.linearValueHeads)
    requires IsLinear(gate, xs, c.hiddenSize, w.gate, ValueWidth(c))
    requires |xs| == rows
    ensures fresh(packed) && packed.Length == Offset(|xs|, DeltaArgsOf(c, 1).Stride())
    ensures Rows(packed[..], |xs|, DeltaArgsOf(c, 1).Stride()) == PackLinear(c, w, xs)
  {
    hide PackLinearRow, Rows, Offset, LinearFits, IsLinear, DeltaArgs.Stride;
    var stride := DeltaArgsOf(c, 1).Stride();
    packed := new Scalar[Offset(rows, stride)](_ => Zero);
    for t := 0 to rows
      invariant forall k :: 0 <= k < t ==> Rows(packed[..], rows, stride)[k] == PackLinearRow(c, w, xs[k])
    {
      PackLinearNth(c, w, xs, t, packed, qkv, beta, alpha, gate);
    }
  }

  method RunFullMixer(c: Config, w: FullMixerWeights, normalized: seq<Scalar>, rows: nat) returns (r: Result<seq<Scalar>>)
    requires ValidConfig(c) && rows > 0 && |normalized| == Offset(rows, c.hiddenSize)
    ensures r.Ok? <==> FullFits(c, w) && FullSizesFit(FullArgsOf(c, rows))
    ensures r.Ok? ==> |r.value| == Offset(rows, c.hiddenSize)
    ensures r.Ok? ==> Rows(r.value, rows, c.hiddenSize) == FullMixerRows(c, w, Rows(normalized, rows, c.hiddenSize))
  {
    hide *;
    WidthsDoNotWrap(c);
    var h := c.hiddenSize;
    var queryWidth, kvWidth := Mul32(c.fullHeads, c.fullHeadDim), Mul32(c.fullKvHeads, c.fullHeadDim);
    FullMixerWidths(c, w, rows);
    var queryGate := LinearOver(normalized, rows, h, w.query, queryWidth + queryWidth);
    var key := LinearOver(normalized, rows, h, w.key, kvWidth);
    var value := LinearOver(normalized, rows, h, w.value, kvWidth);
    var outputWeight := TransposeOutputWeight(w.output, queryWidth, h);
    var args := FullArgsOf(c, rows);
    if queryGate.Err? || key.Err? || value.Err? || outputWeight.Err? || !args.Valid() || !FullSizesFit(args)
       || |w.queryNorm| != c.fullHeadDim || |w.keyNorm| != c.fullHeadDim {
      return Err;
    }
    ghost var xs := Rows(normalized, rows, h);
    var packed := PackFullRows(c, w, rows, xs, queryGate.value, key.value, value.value);
    var output := new Scalar[Offset(rows, h)](_ => Zero);
    FullMixerEquation(c, w, xs, outputWeight.value);
    var ok := GatedFullAttention(packed[..], output, FullWeights(w.queryNorm, w.keyNorm, outputWeight.value), args);
    r := Ok(output[..]);
  }

  lemma {:induction false} FullMixerWidths(c: Config, w: FullMixerWeights, rows: nat)
    requires ValidConfig(c) && rows > 0
    ensures
      var args := FullArgsOf(c, rows);
      && args.tokens == rows && args.hiddenSize == c.hiddenSize
      && args.Stride() == FullArgsOf(c, 1).Stride()
      && args.Valid() == FullArgsOf(c, 1).Valid()
    ensures FullFits(c, w) <==>
      && FullArgsOf(c, 1).Valid()
      && |w.query| == Offset(QueryWidth(c) + QueryWidth(c), c.hiddenSize)
      && |w.key| == Offset(KvWidth(c), c.hiddenSize)
      && |w.value| == Offset(KvWidth(c), c.hiddenSize)
      && |w.output| == Offset(c.hiddenSize, QueryWidth(c))
      && |w.queryNorm| == c.fullHeadDim && |w.keyNorm| == c.fullHeadDim
  {
  }

  lemma {:induction false} FullMixerEquation(c: Config, w: FullMixerWeights, xs: seq<seq<Scalar>>, transposed: seq<Scalar>)
    requires FullFits(c, w) && |xs| > 0 && forall t :: 0 <= t < |xs| ==> |xs[t]| == c.hiddenSize
    requires |transposed| == Offset(QueryWidth(c), c.hiddenSize) && QueryWidth(c) == c.hiddenSize
    requires Rows(transposed, QueryWidth(c), c.hiddenSize) == TransposeRows(Rows(w.output, c.hiddenSize, QueryWidth(c)), QueryWidth(c))
    ensures
      var args, fw := FullArgsOf(c, |xs|), FullWeights(w.queryNorm, w.keyNorm, transposed);
      && args.Valid() && FitsWeights(args, fw) && Packed(args, PackFull(c, w, xs))
      && FullMixerRows(c, w, xs) == AttentionRows(args, fw, PackFull(c, w, xs))
  {
    hide AttentionRows, PackFullRow, TransposeRows, Flatten, Rows;
    FlattenRows(transposed, QueryWidth(c), c.hiddenSize);
    FullArgsTokens(c, |xs|);
    assert FullWeightsOf(c, w).output == transposed;
  }

  method PackFullRows(c: Config, w: FullMixerWeights, rows: nat, ghost xs: seq<seq<Scalar>>,
                      queryGate: seq<Scalar>, key: seq<Scalar>, value: seq<Scalar>)
    returns (packed: array<Scalar>)
    requires FullFits(c, w) && |xs| == rows && forall k :: 0 <= k < |xs| ==> |xs[k]| == c.hiddenSize
    requires IsLinear(queryGate, xs, c.hiddenSize, w.query, QueryWidth(c) + QueryWidth(c))
    requires IsLinear(key, xs, c.hiddenSize, w.key, KvWidth(c))
    requires IsLinear(value, xs, c.hiddenSize, w.value, KvWidth(c))
    ensures fresh(packed) && packed.Length == Offset(|xs|, FullArgsOf(c, 1).Stride())
    ensures Rows(packed[..], |xs|, FullArgsOf(c, 1).Stride()) == PackFull(c, w, xs)
  {
    hide PackFullRow, Rows, Offset, FullFits, IsLinear, FullArgs.Stride;
    var stride := FullArgsOf(c, 1).Stride();
    packed := new Scalar[Offset(rows, stride)](_ => Zero);
    for t := 0 to rows
      invariant forall k :: 0 <= k < t ==> Rows(packed[..], rows, stride)[k] == PackFullRow(c, w, xs[k])
    {
      PackFullNth(c, w, xs, t, packed, queryGate, key, value);
    }
  }

  /** Reading the transposed weight input-major is the ordinary product with the stored weight. */
  lemma {:induction false} TransposedProjection(raw: seq<seq<Scalar>>, x: seq<Scalar>)
    requires forall r :: 0 <= r < |raw| ==> |raw[r]| == |x|
    ensures ProjectRow(x, TransposeRows(raw, |x|), |raw|) == LinearRow(x, raw)
  {
    forall o | 0 <= o < |raw|
      ensures Column(TransposeRows(raw, |x|), |raw|, o) == raw[o]
    {
    }
  }

  // ----- one layer, in place on the hidden buffer -----

  method RunMixer(c: Config, w: MixerWeights, normalized: seq<Scalar>, rows: nat) returns (r: Result<seq<Scalar>>)
    requires ValidConfig(c) && rows > 0 && |normalized| == Offset(rows, c.hiddenSize)
    ensures r.Ok? <==> MixerFits(c, w) && MixerSizesFit(c, w, rows)
    ensures r.Ok? ==> |r.value| == Offset(rows, c.hiddenSize)
    ensures r.Ok? ==> Rows(r.value, rows, c.hiddenSize) == MixerRows(c, w, Rows(normalized, rows, c.hiddenSize))
  {
    hide LinearFits, FullFits, DeltaSizesFit, FullSizesFit, LinearMixerRows, FullMixerRows, Rows, Offset;
    match w
    case FullMixer(full) => r := RunFullMixer(c, full, normalized, rows);
    case LinearMixer(linear) => r := RunLinearMixer(c, linear, normalized, rows);
  }

  method ActivateInPlace(gate: array<Scalar>, up: seq<Scalar>)
    requires gate.Length == |up|
    modifies gate
    ensures gate[..] == Activate(old(gate[..]), up)
  {
    ghost var was := gate[..];
    for i := 0 to |up|
      invariant forall k :: 0 <= k < |up| ==> gate[k] == if k < i then Mul(Silu(was[k]), up[k]) else was[k]
    {
      gate[i] := Mul(Div(gate[i], Add(One, Exp(Unary(FNeg, gate[i])))), up[i]);
    }
  }

  lemma {:induction false} ActivateRows(gate: seq<Scalar>, up: seq<Scalar>, n: nat, w: nat)
    requires |gate| == |up| == Offset(n, w)
    ensures forall t :: 0 <= t < n ==>
      Rows(Activate(gate, up), n, w)[t] == Activate(Rows(gate, n, w)[t], Rows(up, n, w)[t])
  {
    hide Silu;
    forall t | 0 <= t < n
      ensures Rows(Activate(gate, up), n, w)[t] == Activate(Rows(gate, n, w)[t], Rows(up, n, w)[t])
    {
      RowInside(n, w, t);
      assert Rows(Activate(gate, up), n, w)[t] == Row(Activate(gate, up), n, w, t);
      assert Rows(gate, n, w)[t] == Row(gate, n, w, t) && Rows(up, n, w)[t] == Row(up, n, w, t);
    }
  }

  method FeedForward(c: Config, w: LayerWeights, normalized: seq<Scalar>, rows: nat) returns (r: Result<seq<Scalar>>)
    requires |normalized| == Offset(rows, c.hiddenSize)
    ensures r.Ok? <==> |w.ffnGate| == |w.ffnUp| == Offset(c.intermediateSize, c.hiddenSize)
                       && |w.ffnDown| == Offset(c.hiddenSize, c.intermediateSize)
    ensures r.Ok? ==> |r.value| == Offset(rows, c.hiddenSize)
    ensures r.Ok? && LayerFits(c, w) ==>
      Rows(r.value, rows, c.hiddenSize) == FeedForwardRows(c, w, Rows(normalized, rows, c.hiddenSize))
  {
    hide *;
    var h, m := c.hiddenSize, c.intermediateSize;
    var gate := LinearOver(normalized, rows, h, w.ffnGate, m);
    var up := LinearOver(normalized, rows, h, w.ffnUp, m);
    if gate.Err? || up.Err? {
      return Err;
    }
    LinearLength(gate.value, rows, Rows(normalized, rows, h), h, w.ffnGate, m);
    LinearLength(up.value, rows, Rows(normalized, rows, h), h, w.ffnUp, m);
    var active := new Scalar[|gate.value|](i requires 0 <= i < |gate.value| => gate.value[i]);
    assert active[..] == gate.value;
    ActivateInPlace(active, up.value);
    r := Linear(active[..], rows, m, w.ffnDown, h);
    if r.Ok? && LayerFits(c, w) {
      FeedForwardEquation(c, w, Rows(normalized, rows, h), gate.value, up.value);
    }
  }

  lemma {:induction false} LinearLength(y: seq<Scalar>, n: nat, xs: seq<seq<Scalar>>, w: nat, raw: seq<Scalar>, width: nat)
    requires |xs| == n && forall k :: 0 <= k < |xs| ==> |xs[k]| == w
    requires IsLinear(y, xs, w, raw, width)
    ensures |y| == Offset(n, width)
  {
  }

  lemma {:induction false} FeedForwardEquation(c: Config, w: LayerWeights, xs: seq<seq<Scalar>>, gate: seq<Scalar>, up: seq<Scalar>)
    requires LayerFits(c, w) && forall t :: 0 <= t < |xs| ==> |xs[t]| == c.hiddenSize
    requires IsLinear(gate, xs, c.hiddenSize, w.ffnGate, c.intermediateSize)
    requires IsLinear(up, xs, c.hiddenSize, w.ffnUp, c.intermediateSize)
    ensures
      var h, m := c.hiddenSize, c.intermediateSize;
      && |gate| == |up| == Offset(|xs|, m) && |w.ffnDown| == Offset(h, m)
      && LinearRows(Rows(Activate(gate, up), |xs|, m), m, Rows(w.ffnDown, h, m)) == FeedForwardRows(c, w, xs)
  {
    hide LinearRow, Activate, Rows, MixerFits;
    ActivateRows(gate, up, |xs|, c.intermediateSize);
    var h, m := c.hiddenSize, c.intermediateSize;
    var left := LinearRows(Rows(Activate(gate, up), |xs|, m), m, Rows(w.ffnDown, h, m));
    var right := FeedForwardRows(c, w, xs);
    forall t | 0 <= t < |xs|
      ensures left[t] == right[t]
    {
      assert Rows(gate, |xs|, m)[t] == LinearRow(xs[t], Rows(w.ffnGate, m, h));
      assert Rows(up, |xs|, m)[t] == LinearRow(xs[t], Rows(w.ffnUp, m, h));
    }
  }

  method RunLayer(c: Config, w: LayerWeights, hidden: array<Scalar>, rows: nat) returns (ok: bool)
    requires ValidConfig(c) && rows > 0 && hidden.Length == Offset(rows, c.hiddenSize)
    modifies hidden
    ensures ok <==> LayerFits(c, w) && MixerSizesFit(c, w.mixer, rows)
    ensures ok ==> Rows(hidden[..], rows, c.hiddenSize) == LayerRows(c, w, old(Rows(hidden[..], rows, c.hiddenSize)))
  {
    hide *;
    var h := c.hiddenSize;
    LayerFitsParts(c, w);
    ghost var start := hidden[..];
    var normalized := new Scalar[hidden.Length](_ => Zero);
    ok := RmsNorm(hidden, 0, hidden.Length, w.inputNorm, normalized, rows, h, Epsilon(c));
    if !ok {
      return;
    }
    var mixed := RunMixer(c, w.mixer, normalized[..], rows);
    if mixed.Err? {
      return false;
    }
    ok := ResidualAdd(hidden, mixed.value);
    ghost var middle := hidden[..];
    ok := RmsNorm(hidden, 0, hidden.Length, w.postNorm, normalized, rows, h, Epsilon(c));
    if !ok {
      return;
    }
    var down := FeedForward(c, w, normalized[..], rows);
    if down.Err? {
      return false;
    }
    ok := ResidualAdd(hidden, down.value);
    assert start[0..|start|] == start && middle[0..|middle|] == middle;
    AddRowRows(start, mixed.value, rows, h);
    AddRowRows(middle, down.value, rows, h);
    LayerEquation(c, w, Rows(start, rows, h));
  }

  lemma {:induction false} LayerFitsParts(c: Config, w: LayerWeights)
    requires ValidConfig(c)
    ensures LayerFits(c, w) <==>
      && |w.inputNorm| == c.hiddenSize && |w.postNorm| == c.hiddenSize
      && |w.ffnGate| == |w.ffnUp| == Offset(c.intermediateSize, c.hiddenSize)
      && |w.ffnDown| == Offset(c.hiddenSize, c.intermediateSize)
      && MixerFits(c, w.mixer)
    ensures c.hiddenSize > 0
  {
    hide MixerFits, Offset;
  }

  lemma {:induction false} LayerEquation(c: Config, w: LayerWeights, xs: seq<seq<Scalar>>)
    requires LayerFits(c, w) && |xs| > 0 && forall t :: 0 <= t < |xs| ==> |xs[t]| == c.hiddenSize
    ensures
      var h := c.hiddenSize;
      && MixerFits(c, w.mixer) && |w.inputNorm| == |w.postNorm| == h
      && (var mid := AddRows(xs, MixerRows(c, w.mixer, RmsRows(xs, h, w.inputNorm, Epsilon(c))), h);
          LayerRows(c, w, xs) == AddRows(mid, FeedForwardRows(c, w, RmsRows(mid, h, w.postNorm, Epsilon(c))), h))
  {
    hide MixerFits, MixerRows, FeedForwardRows, RmsRows, AddRows;
  }
}
