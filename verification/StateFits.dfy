/** The sizes the mixers demand, in plain products; the buffers a layout provides are the state the mixers carry,
    and its slots number the blocks of each kind. */
module StateFits {
  import opened Prelude
  import opened Matrix
  import opened Qwen35Config
  import opened Attention
  import opened DeltaNet
  import opened ReferenceNetwork
  import StateLayout

  /** What the full mixer demands of its sizes: heads that fill the hidden size, key/value heads that each serve
      as many query heads, and a rotary part of whole pairs inside a head. */
  lemma FullArgsMean(args: FullArgs)
    ensures args.Valid() <==>
      && args.tokens > 0 && args.headDim > 0 && args.kvHeads > 0 && args.hiddenSize > 0
      && (exists size: nat :: size > 0 && args.queryHeads == size * args.kvHeads)
      && args.queryHeads * args.headDim == args.hiddenSize
      && args.rotaryDim == args.rotaryDim / 2 + args.rotaryDim / 2 && args.rotaryDim <= args.headDim
  {
    hide Offset;
    OffsetIsProduct(args.queryHeads, args.headDim);
    if args.kvHeads > 0 {
      Multiples(args.queryHeads, args.kvHeads);
    }
  }

  /** And the delta mixer: value heads that fill the hidden size, a whole number of them for each key head. */
  lemma DeltaArgsMean(args: DeltaArgs)
    ensures args.Valid() <==>
      && args.tokens > 0 && args.keyDim > 0 && args.valueDim > 0 && args.keyHeads > 0 && args.convWidth > 0
      && args.hiddenSize > 0
      && (exists size: nat :: size > 0 && args.valueHeads == size * args.keyHeads)
      && args.valueHeads * args.valueDim == args.hiddenSize
  {
    hide Offset;
    OffsetIsProduct(args.valueHeads, args.valueDim);
    if args.keyHeads > 0 {
      Multiples(args.valueHeads, args.keyHeads);
    }
  }

  lemma Multiples(n: nat, d: nat)
    requires d > 0
    ensures n > 0 && n % d == 0 <==> exists size: nat :: size > 0 && n == size * d
  {
    if n > 0 && n % d == 0 {
      assert n == n / d * d;
    }
    forall size: nat | size > 0 && n == size * d
      ensures n > 0 && n % d == 0
    {
      QuotientUnique(n, d, size, 0);
      MulLe(1, size, d);
    }
  }

  /** A linear block's buffers hold a history per channel and a matrix per value head; a full block's cache holds
      a key and a value of every head for every token. */
  lemma BuffersHoldState(c: Config, maxContext: nat, l: StateLayout.Layout)
    requires c.convolutionWidth > 0 && StateLayout.Sound(l) && StateLayout.Describes(c, maxContext, l)
    ensures l.convolutionFloats == Offset(DeltaArgsOf(c, 1).ConvDim(), c.convolutionWidth - 1)
    ensures l.recurrentFloats == Offset(c.linearValueHeads, DeltaArgsOf(c, 1).HeadSize())
    ensures l.kvFloats == Offset(maxContext, KvWidth(c) + KvWidth(c))
    ensures l.convolutionBytes == 4 * Offset(l.linearLayers, l.convolutionFloats)
    ensures l.recurrentBytes == 4 * Offset(l.linearLayers, l.recurrentFloats)
    ensures l.kvBytes == 4 * Offset(l.fullLayers, l.kvFloats)
  {
    hide Offset, StateLayout.SlotBijection, StateLayout.OneKind, StateLayout.SlotsInOrder;
    var n, d := c.linearValueHeads, c.linearHeadDim;
    OffsetIsProduct(c.linearKeyHeads, d);
    OffsetIsProduct(n, d);
    OffsetIsProduct(DeltaArgsOf(c, 1).ConvDim(), c.convolutionWidth - 1);
    OffsetIsProduct(d, d);
    OffsetIsProduct(n, d * d);
    OffsetIsProduct(c.fullKvHeads, c.fullHeadDim);
    OffsetIsProduct(maxContext, KvWidth(c) + KvWidth(c));
    OffsetIsProduct(l.linearLayers, l.convolutionFloats);
    OffsetIsProduct(l.linearLayers, l.recurrentFloats);
    OffsetIsProduct(l.fullLayers, l.kvFloats);
    KeysTwice(c.linearKeyHeads, d);
    CacheTwice(maxContext, c.fullKvHeads * c.fullHeadDim);
  }

  lemma KeysTwice(k: nat, d: nat)
    ensures 2 * k * d == k * d + k * d
  {
  }

  lemma CacheTwice(t: nat, w: nat)
    ensures (2 * t) * w == t * (w + w)
  {
  }

  /** The blocks of a kind before block `b`. */
  ghost function Earlier(blocks: seq<BlockPlan>, kind: BlockKind, b: nat): set<nat>
    requires b <= |blocks|
  {
    set a: nat | a < b && blocks[a].kind == kind
  }

  lemma {:induction false} CountIsSize(blocks: seq<BlockPlan>, kind: BlockKind, b: nat)
    requires b <= |blocks|
    ensures StateLayout.CountKind(blocks[..b], kind) == |Earlier(blocks, kind, b)|
  {
    if b > 0 {
      CountIsSize(blocks, kind, b - 1);
      assert blocks[..b][..b - 1] == blocks[..b - 1];
      var before, here := Earlier(blocks, kind, b - 1), Earlier(blocks, kind, b);
      assert here == if blocks[b - 1].kind == kind then before + {b - 1} else before;
    }
  }

  /** A block's slot says how many blocks of its kind come before it, and the layer counts how many there are. */
  lemma {:induction false} SlotsCountBlocks(c: Config, maxContext: nat, l: StateLayout.Layout, b: nat)
    requires StateLayout.Describes(c, maxContext, l) && b < |c.blocks|
    ensures |l.linearSlots| == |l.fullSlots| == |c.blocks|
    ensures l.linearLayers == |Earlier(c.blocks, LinearAttention, |c.blocks|)|
    ensures l.fullLayers == |Earlier(c.blocks, FullAttention, |c.blocks|)|
    ensures c.blocks[b].kind.LinearAttention? ==>
      l.linearSlots[b] == |Earlier(c.blocks, LinearAttention, b)| && l.fullSlots[b] == U32_MAX
    ensures c.blocks[b].kind.FullAttention? ==>
      l.fullSlots[b] == |Earlier(c.blocks, FullAttention, b)| && l.linearSlots[b] == U32_MAX
  {
    hide StateLayout.CountKind;
    assert c.blocks[..|c.blocks|] == c.blocks;
    CountIsSize(c.blocks, LinearAttention, |c.blocks|);
    CountIsSize(c.blocks, FullAttention, |c.blocks|);
    CountIsSize(c.blocks, LinearAttention, b);
    CountIsSize(c.blocks, FullAttention, b);
  }
}
