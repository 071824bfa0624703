/** Sizes and slots of the recurrent state and the key-value caches of a session. */
module StateLayout {
  import opened Prelude
  import opened Qwen35Config
  import opened Matrix

  /** Marks a block without a slot of that kind. */
  const NO_SLOT: nat := U32_MAX

  datatype Layout = Layout(
    maxContextTokens: nat, blockCount: nat, linearLayers: nat, fullLayers: nat,
    convolutionWidth: nat, qkvChannels: nat, valueHeads: nat, keyHeads: nat, linearHeadDim: nat,
    kvHeads: nat, fullHeadDim: nat,
    convolutionFloats: nat, recurrentFloats: nat, kvFloats: nat,
    convolutionBytes: nat, recurrentBytes: nat, kvBytes: nat,
    linearSlots: seq<nat>, fullSlots: seq<nat>)

  // ----- sizes -----

  function QkvChannels(keyHeads: nat, valueHeads: nat, headDim: nat): nat {
    2 * keyHeads * headDim + valueHeads * headDim
  }

  /** The sizes are the exact products, and all of them fit their machine types. */
  predicate SizesExact(l: Layout) {
    && l.qkvChannels == QkvChannels(l.keyHeads, l.valueHeads, l.linearHeadDim) <= U32_MAX
    && (l.convolutionWidth > 0 ==> l.convolutionFloats == l.qkvChannels * (l.convolutionWidth - 1))
    && l.recurrentFloats == l.valueHeads * (l.linearHeadDim * l.linearHeadDim) <= U64_MAX
    && l.kvFloats == (2 * l.maxContextTokens) * (l.kvHeads * l.fullHeadDim) <= U64_MAX
    && l.convolutionBytes == 4 * (l.linearLayers * l.convolutionFloats)
    && l.recurrentBytes == 4 * (l.linearLayers * l.recurrentFloats)
    && l.kvBytes == 4 * (l.fullLayers * l.kvFloats)
    && l.convolutionBytes + l.recurrentBytes + l.kvBytes <= U64_MAX
  }

  /** Per-layer sizes by checked arithmetic, or none when one overflows. */
  function LayerSizes(maxContext: nat, width: nat, keyHeads: nat, valueHeads: nat, headDim: nat, kvHeads: nat, fullDim: nat)
    : (r: Option<(nat, nat, nat, nat)>)
    requires maxContext <= U32_MAX && 0 < width <= U32_MAX && keyHeads <= U32_MAX && valueHeads <= U32_MAX
    requires headDim <= U32_MAX && kvHeads <= U32_MAX && fullDim <= U32_MAX
    ensures r.Some? <==>
      && QkvChannels(keyHeads, valueHeads, headDim) <= U32_MAX
      && valueHeads * (headDim * headDim) <= U64_MAX
      && (2 * maxContext) * (kvHeads * fullDim) <= U64_MAX
    ensures r.Some? ==>
      && r.value.0 == QkvChannels(keyHeads, valueHeads, headDim)
      && r.value.1 == r.value.0 * (width - 1)
      && r.value.2 == valueHeads * (headDim * headDim)
      && r.value.3 == (2 * maxContext) * (kvHeads * fullDim)
  {
    ProductFits(valueHeads, headDim);
    ProductFits(headDim, headDim);
    ProductFits(kvHeads, fullDim);
    var keys := CheckedMul(2 * keyHeads, headDim, U64_MAX);
    var values := CheckedMul(valueHeads, headDim, U64_MAX);
    if keys.None? || values.None? then None else
    var qkv := CheckedAdd(keys.value, values.value, U64_MAX);
    if qkv.None? || qkv.value > U32_MAX then None else
    ProductFits(qkv.value, width - 1);
    var convolution := CheckedMul(qkv.value, width - 1, U64_MAX);
    var square := CheckedMul(headDim, headDim, U64_MAX);
    var recurrent := CheckedMul(valueHeads, square.value, U64_MAX);
    var cache := CheckedMul(kvHeads, fullDim, U64_MAX);
    var kv := CheckedMul(2 * maxContext, cache.value, U64_MAX);
    if recurrent.None? || kv.None? then None
    else Some((qkv.value, convolution.value, recurrent.value, kv.value))
  }

  /** Bytes of `layers` buffers of `floats` single-precision numbers. */
  function BufferBytes(layers: nat, floats: nat): (r: Option<nat>)
    ensures r.Some? <==> 4 * (layers * floats) <= U64_MAX
    ensures r.Some? ==> r.value == 4 * (layers * floats)
  {
    var total := CheckedMul(layers, floats, U64_MAX);
    if total.None? then None else CheckedMul(total.value, 4, U64_MAX)
  }

  /** The three buffers, or none when one or their sum overflows. */
  function TotalBytes(linearLayers: nat, fullLayers: nat, convolution: nat, recurrent: nat, kv: nat)
    : (r: Option<(nat, nat, nat)>)
    ensures r.Some? <==>
      4 * (linearLayers * convolution) + 4 * (linearLayers * recurrent) + 4 * (fullLayers * kv) <= U64_MAX
    ensures r.Some? ==>
      r.value == (4 * (linearLayers * convolution), 4 * (linearLayers * recurrent), 4 * (fullLayers * kv))
  {
    var a := BufferBytes(linearLayers, convolution);
    var b := BufferBytes(linearLayers, recurrent);
    var c := BufferBytes(fullLayers, kv);
    if a.None? || b.None? || c.None? then None else
    var ab := CheckedAdd(a.value, b.value, U64_MAX);
    if ab.None? || CheckedAdd(ab.value, c.value, U64_MAX).None? then None
    else Some((a.value, b.value, c.value))
  }

  // ----- slots -----

  /** One-to-one from the blocks that have a slot onto `0..count`. */
  ghost predicate SlotBijection(slots: seq<nat>, count: nat) {
    && (forall b :: 0 <= b < |slots| && slots[b] != NO_SLOT ==> slots[b] < count)
    && (forall a, b :: 0 <= a < b < |slots| && slots[a] != NO_SLOT ==> slots[a] != slots[b])
    && (forall s: nat :: s < count ==> Taken(slots, s))
  }

  ghost predicate Taken(slots: seq<nat>, s: nat) {
    exists b :: 0 <= b < |slots| && slots[b] == s
  }

  /** Every block has a slot of exactly one kind. */
  predicate OneKind(linear: seq<nat>, full: seq<nat>) {
    |linear| == |full| && forall b :: 0 <= b < |linear| ==> (linear[b] == NO_SLOT <==> full[b] != NO_SLOT)
  }

  predicate Nonzero(l: Layout) {
    && l.maxContextTokens != 0 && l.convolutionWidth != 0 && l.valueHeads != 0 && l.keyHeads != 0
    && l.linearHeadDim != 0 && l.kvHeads != 0 && l.fullHeadDim != 0
  }

  /** All that makes a layout usable, apart from how long a vector may be. */
  ghost predicate Sound(l: Layout) {
    && 0 < l.blockCount == |l.linearSlots| == |l.fullSlots|
    && Nonzero(l) && SizesExact(l)
    && OneKind(l.linearSlots, l.fullSlots)
    && SlotBijection(l.linearSlots, l.linearLayers) && SlotBijection(l.fullSlots, l.fullLayers)
  }

  /** The field widths of the source. */
  predicate Widths(l: Layout) {
    && l.maxContextTokens <= U32_MAX && l.blockCount <= U32_MAX && l.linearLayers <= U32_MAX && l.fullLayers <= U32_MAX
    && l.convolutionWidth <= U32_MAX && l.valueHeads <= U32_MAX && l.keyHeads <= U32_MAX
    && l.linearHeadDim <= U32_MAX && l.kvHeads <= U32_MAX && l.fullHeadDim <= U32_MAX
  }

  // ----- creation -----

  function CountKind(blocks: seq<BlockPlan>, kind: BlockKind): (n: nat)
    ensures n <= |blocks|
  {
    if |blocks| == 0 then 0
    else CountKind(blocks[..|blocks| - 1], kind) + if blocks[|blocks| - 1].kind == kind then 1 else 0
  }

  /** Blocks of the kind get consecutive slots in block order. */
  ghost predicate SlotsInOrder(blocks: seq<BlockPlan>, kind: BlockKind, slots: seq<nat>) {
    |slots| == |blocks|
    && forall b :: 0 <= b < |blocks| ==>
         slots[b] == if blocks[b].kind == kind then CountKind(blocks[..b], kind) else NO_SLOT
  }

  lemma {:induction false} CountGrows(blocks: seq<BlockPlan>, kind: BlockKind, a: nat, b: nat)
    requires a < b <= |blocks|
    ensures CountKind(blocks[..a], kind) + (if blocks[a].kind == kind then 1 else 0) <= CountKind(blocks[..b], kind)
    decreases b
  {
    assert blocks[..b][..b - 1] == blocks[..b - 1];
    if a < b - 1 {
      CountGrows(blocks, kind, a, b - 1);
    }
  }

  lemma {:induction false} SlotTaken(blocks: seq<BlockPlan>, kind: BlockKind, slots: seq<nat>, n: nat, s: nat)
    requires SlotsInOrder(blocks, kind, slots) && n <= |blocks| && s < CountKind(blocks[..n], kind)
    ensures Taken(slots, s)
    decreases n
  {
    hide SlotsInOrder;
    assert blocks[..n][..n - 1] == blocks[..n - 1];
    if s < CountKind(blocks[..n - 1], kind) {
      SlotTaken(blocks, kind, slots, n - 1, s);
    } else {
      assert slots[n - 1] == s by { SlotOf(blocks, kind, slots, n - 1); }
    }
  }

  lemma SlotOf(blocks: seq<BlockPlan>, kind: BlockKind, slots: seq<nat>, b: nat)
    requires SlotsInOrder(blocks, kind, slots) && b < |blocks|
    ensures |slots| == |blocks| && slots[b] == if blocks[b].kind == kind then CountKind(blocks[..b], kind) else NO_SLOT
  {
  }

  /** Consecutive numbering is a bijection. */
  lemma {:induction false} InOrderBijection(blocks: seq<BlockPlan>, kind: BlockKind, slots: seq<nat>)
    requires SlotsInOrder(blocks, kind, slots) && |blocks| <= U32_MAX
    ensures SlotBijection(slots, CountKind(blocks, kind))
  {
    hide SlotsInOrder, CountKind, Taken;
    assert blocks[..|blocks|] == blocks;
    SlotsLength(blocks, kind, slots);
    forall b | 0 <= b < |blocks|
      ensures slots[b] == (if blocks[b].kind == kind then CountKind(blocks[..b], kind) else NO_SLOT)
      ensures slots[b] != NO_SLOT ==> slots[b] < CountKind(blocks, kind)
    {
      SlotOf(blocks, kind, slots, b);
      CountGrows(blocks, kind, b, |blocks|);
    }
    forall a, b | 0 <= a < b < |slots| && slots[a] != NO_SLOT
      ensures slots[a] != slots[b]
    {
      CountGrows(blocks, kind, a, b);
      CountGrows(blocks, kind, a, |blocks|);
    }
    forall s: nat | s < CountKind(blocks, kind)
      ensures Taken(slots, s)
    {
      SlotTaken(blocks, kind, slots, |blocks|, s);
    }
  }

  lemma SlotsLength(blocks: seq<BlockPlan>, kind: BlockKind, slots: seq<nat>)
    requires SlotsInOrder(blocks, kind, slots)
    ensures |slots| == |blocks|
  {
  }

  predicate ConfigWidths(c: Config) {
    && c.convolutionWidth <= U32_MAX && c.linearValueHeads <= U32_MAX && c.linearKeyHeads <= U32_MAX
    && c.linearHeadDim <= U32_MAX && c.fullKvHeads <= U32_MAX && c.fullHeadDim <= U32_MAX
  }

  predicate NonzeroInputs(c: Config, maxContext: nat) {
    && maxContext != 0 && c.convolutionWidth != 0 && c.linearValueHeads != 0 && c.linearKeyHeads != 0
    && c.linearHeadDim != 0 && c.fullKvHeads != 0 && c.fullHeadDim != 0
  }

  /** The layout a configuration asks for, in unbounded arithmetic. */
  ghost predicate Describes(c: Config, maxContext: nat, l: Layout) {
    && l.maxContextTokens == maxContext && l.blockCount == |c.blocks|
    && l.convolutionWidth == c.convolutionWidth && l.valueHeads == c.linearValueHeads && l.keyHeads == c.linearKeyHeads
    && l.linearHeadDim == c.linearHeadDim && l.kvHeads == c.fullKvHeads && l.fullHeadDim == c.fullHeadDim
    && l.linearLayers == CountKind(c.blocks, LinearAttention) && l.fullLayers == CountKind(c.blocks, FullAttention)
    && SlotsInOrder(c.blocks, LinearAttention, l.linearSlots) && SlotsInOrder(c.blocks, FullAttention, l.fullSlots)
  }

  function ConvolutionFloats(c: Config): nat {
    QkvChannels(c.linearKeyHeads, c.linearValueHeads, c.linearHeadDim) * Pred(c.convolutionWidth)
  }

  function RecurrentFloats(c: Config): nat { c.linearValueHeads * (c.linearHeadDim * c.linearHeadDim) }

  function KvFloats(c: Config, maxContext: nat): nat { (2 * maxContext) * (c.fullKvHeads * c.fullHeadDim) }

  /** When every size of that layout fits its machine type. */
  predicate SizesFit(c: Config, maxContext: nat) {
    var linear, full := CountKind(c.blocks, LinearAttention), CountKind(c.blocks, FullAttention);
    && QkvChannels(c.linearKeyHeads, c.linearValueHeads, c.linearHeadDim) <= U32_MAX
    && RecurrentFloats(c) <= U64_MAX && KvFloats(c, maxContext) <= U64_MAX
    && 4 * (linear * ConvolutionFloats(c)) + 4 * (linear * RecurrentFloats(c)) + 4 * (full * KvFloats(c, maxContext)) <= U64_MAX
  }

  /** When no vector of that layout is longer than the platform allows. */
  predicate VectorsFit(c: Config, maxContext: nat, maxLengths: nat, maxFloats: nat) {
    var linear, full := CountKind(c.blocks, LinearAttention), CountKind(c.blocks, FullAttention);
    && full <= maxLengths && full * KvFloats(c, maxContext) <= maxFloats
    && linear * ConvolutionFloats(c) <= maxFloats && linear * RecurrentFloats(c) <= maxFloats
  }

  function Pred(n: nat): nat { if n == 0 then 0 else n - 1 }

  /** Counts the blocks of each kind, and refuses blocks out of index order. */
  method CountLayers(blocks: seq<BlockPlan>) returns (ok: bool, linear: nat, full: nat)
    ensures ok <==> forall b :: 0 <= b < |blocks| ==> blocks[b].index == b
    ensures ok ==> linear == CountKind(blocks, LinearAttention) && full == CountKind(blocks, FullAttention)
  {
    linear, full := 0, 0;
    for position := 0 to |blocks|
      invariant forall b :: 0 <= b < position ==> blocks[b].index == b
      invariant linear == CountKind(blocks[..position], LinearAttention)
      invariant full == CountKind(blocks[..position], FullAttention)
    {
      assert blocks[..position + 1][..position] == blocks[..position];
      if blocks[position].index != position {
        return false, 0, 0;
      }
      if blocks[position].kind == LinearAttention {
        linear := linear + 1;
      } else {
        full := full + 1;
      }
    }
    assert blocks[..|blocks|] == blocks;
    ok := true;
  }

  lemma CountNone(blocks: seq<BlockPlan>, kind: BlockKind)
    ensures CountKind(blocks[..0], kind) == 0
  {
  }

  lemma CountNext(blocks: seq<BlockPlan>, kind: BlockKind, b: nat)
    requires b < |blocks|
    ensures CountKind(blocks[..b + 1], kind) == CountKind(blocks[..b], kind) + if blocks[b].kind == kind then 1 else 0
  {
    assert blocks[..b + 1][..b] == blocks[..b];
  }

  method AssignSlots(blocks: seq<BlockPlan>) returns (linearSlots: seq<nat>, fullSlots: seq<nat>)
    ensures SlotsInOrder(blocks, LinearAttention, linearSlots) && SlotsInOrder(blocks, FullAttention, fullSlots)
  {
    hide CountKind;
    CountNone(blocks, LinearAttention);
    CountNone(blocks, FullAttention);
    linearSlots, fullSlots := seq(|blocks|, _ => NO_SLOT), seq(|blocks|, _ => NO_SLOT);
    var linear, full := 0, 0;
    for b := 0 to |blocks|
      invariant |linearSlots| == |fullSlots| == |blocks|
      invariant linear == CountKind(blocks[..b], LinearAttention) && full == CountKind(blocks[..b], FullAttention)
      invariant forall a :: 0 <= a < |blocks| ==>
        linearSlots[a] == if a < b && blocks[a].kind == LinearAttention then CountKind(blocks[..a], LinearAttention) else NO_SLOT
      invariant forall a :: 0 <= a < |blocks| ==>
        fullSlots[a] == if a < b && blocks[a].kind == FullAttention then CountKind(blocks[..a], FullAttention) else NO_SLOT
    {
      CountNext(blocks, LinearAttention, b);
      CountNext(blocks, FullAttention, b);
      if blocks[b].kind == LinearAttention {
        linearSlots := linearSlots[b := linear];
        linear := linear + 1;
      } else {
        fullSlots := fullSlots[b := full];
        full := full + 1;
      }
    }
  }

  method Create(c: Config, maxContext: nat) returns (r: Result<Layout>)
    requires ConfigWidths(c) && maxContext <= U32_MAX
    ensures r.Ok? <==> NonzeroInputs(c, maxContext) && InOrder(c.blocks) && |c.blocks| <= U32_MAX && SizesFit(c, maxContext)
    ensures r.Ok? ==> Describes(c, maxContext, r.value) && Sound(r.value) && Widths(r.value)
  {
    hide SlotsInOrder, SlotBijection, CountKind, QkvChannels;
    if !NonzeroInputs(c, maxContext) || |c.blocks| > U32_MAX || |c.blocks| == 0 {
      return Err;
    }
    var ordered, linear, full := CountLayers(c.blocks);
    if !ordered {
      return Err;
    }
    var sizes := LayerSizes(maxContext, c.convolutionWidth, c.linearKeyHeads, c.linearValueHeads, c.linearHeadDim,
                            c.fullKvHeads, c.fullHeadDim);
    if sizes.None? {
      return Err;
    }
    var bytes := TotalBytes(linear, full, sizes.value.1, sizes.value.2, sizes.value.3);
    if bytes.None? {
      return Err;
    }
    var linearSlots, fullSlots := AssignSlots(c.blocks);
    InOrderBijection(c.blocks, LinearAttention, linearSlots);
    InOrderBijection(c.blocks, FullAttention, fullSlots);
    SlotsOneKind(c.blocks, linearSlots, fullSlots);
    r := Ok(Layout(maxContext, |c.blocks|, linear, full, c.convolutionWidth, sizes.value.0,
                   c.linearValueHeads, c.linearKeyHeads, c.linearHeadDim, c.fullKvHeads, c.fullHeadDim,
                   sizes.value.1, sizes.value.2, sizes.value.3, bytes.value.0, bytes.value.1, bytes.value.2,
                   linearSlots, fullSlots));
  }

  lemma SlotsOneKind(blocks: seq<BlockPlan>, linearSlots: seq<nat>, fullSlots: seq<nat>)
    requires SlotsInOrder(blocks, LinearAttention, linearSlots) && SlotsInOrder(blocks, FullAttention, fullSlots)
    requires |blocks| <= U32_MAX
    ensures OneKind(linearSlots, fullSlots) && |linearSlots| == |blocks|
    ensures CountKind(blocks, LinearAttention) <= U32_MAX && CountKind(blocks, FullAttention) <= U32_MAX
  {
  }

  // ----- validation -----

  function CountUsed(slots: seq<nat>): (n: nat)
    ensures n <= |slots|
  {
    if |slots| == 0 then 0 else CountUsed(slots[..|slots| - 1]) + if slots[|slots| - 1] != NO_SLOT then 1 else 0
  }

  /** Slots in range and no slot given twice. */
  ghost predicate SlotsDistinct(slots: seq<nat>, count: nat) {
    && (forall b :: 0 <= b < |slots| && slots[b] != NO_SLOT ==> slots[b] < count)
    && (forall a, b :: 0 <= a < b < |slots| && slots[a] != NO_SLOT ==> slots[a] != slots[b])
  }

  ghost function Used(slots: seq<nat>): (u: set<nat>)
    ensures forall s :: s in u <==> s != NO_SLOT && Taken(slots, s)
  {
    set b | 0 <= b < |slots| && slots[b] != NO_SLOT :: slots[b]
  }

  lemma {:induction false} UsedCount(slots: seq<nat>, count: nat)
    requires SlotsDistinct(slots, count)
    ensures |Used(slots)| == CountUsed(slots)
  {
    hide SlotsDistinct, Taken;
    if |slots| > 0 {
      var front, last := slots[..|slots| - 1], slots[|slots| - 1];
      assert slots == front + [last];
      DistinctPrefix(slots, count, |front|);
      UsedCount(front, count);
      UsedOneMore(front, last);
      if last != NO_SLOT {
        NotUsed(front, last, count);
      }
    }
  }

  lemma NotUsed(front: seq<nat>, last: nat, count: nat)
    requires SlotsDistinct(front + [last], count) && last != NO_SLOT
    ensures last !in Used(front)
  {
    forall b | 0 <= b < |front|
      ensures front[b] != last
    {
      assert (front + [last])[b] == front[b] && (front + [last])[|front|] == last;
    }
  }

  lemma UsedOneMore(front: seq<nat>, last: nat)
    ensures Used(front + [last]) == if last == NO_SLOT then Used(front) else Used(front) + {last}
  {
    hide Taken;
    forall s
      ensures Taken(front + [last], s) <==> Taken(front, s) || s == last
    {
      TakenOneMore(front, last, s);
    }
  }

  lemma TakenOneMore(front: seq<nat>, last: nat, s: nat)
    ensures Taken(front + [last], s) <==> Taken(front, s) || s == last
  {
    var slots := front + [last];
    assert slots[|front|] == last;
    assert forall b :: 0 <= b < |front| ==> slots[b] == front[b];
  }

  lemma SubsetFull(a: set<nat>, b: set<nat>)
    requires a <= b && |a| == |b|
    ensures a == b
  {
    if a != b {
      var x :| x in b && x !in a;
      SubsetCount(a, b - {x});
    }
  }

  /** Pigeonhole: distinct slots in range are onto exactly when there are as many as slots. */
  lemma CountDecides(slots: seq<nat>, count: nat)
    requires SlotsDistinct(slots, count) && count <= U32_MAX
    ensures SlotBijection(slots, count) <==> CountUsed(slots) == count
  {
    hide CountUsed;
    UsedCount(slots, count);
    assert Used(slots) <= Interval(0, count);
    if CountUsed(slots) == count {
      SubsetFull(Used(slots), Interval(0, count));
      assert forall s: nat :: s < count ==> s in Interval(0, count);
    }
    if SlotBijection(slots, count) {
      assert Used(slots) == Interval(0, count);
    }
  }

  /** Whether an earlier block already has the slot. */
  method Repeats(slots: seq<nat>, block: nat) returns (found: bool)
    requires block < |slots|
    ensures found <==> exists p :: 0 <= p < block && slots[p] == slots[block]
  {
    for previous := 0 to block
      invariant forall p :: 0 <= p < previous ==> slots[p] != slots[block]
    {
      if slots[previous] == slots[block] {
        return true;
      }
    }
    found := false;
  }

  /** Checks one slot of a block against the slots before it. */
  method CheckSlot(slots: seq<nat>, count: nat, block: nat) returns (ok: bool)
    requires block < |slots| && slots[block] != NO_SLOT && SlotsDistinct(slots[..block], count)
    ensures ok <==> SlotsDistinct(slots[..block + 1], count)
  {
    if slots[block] >= count {
      assert slots[..block + 1][block] == slots[block];
      return false;
    }
    var repeats := Repeats(slots, block);
    ok := !repeats;
    OneMoreSlot(slots, count, block);
  }

  lemma OneMoreSlot(slots: seq<nat>, count: nat, block: nat)
    requires block < |slots| && SlotsDistinct(slots[..block], count)
    ensures SlotsDistinct(slots[..block + 1], count) <==>
            slots[block] == NO_SLOT || (slots[block] < count && forall p :: 0 <= p < block ==> slots[p] != slots[block])
  {
    var more := slots[..block + 1];
    assert more == slots[..block] + [slots[block]];
    if SlotsDistinct(more, count) && slots[block] != NO_SLOT {
      forall p | 0 <= p < block
        ensures slots[p] != slots[block]
      {
        assert more[p] == slots[p] && more[block] == slots[block];
      }
    }
  }

  lemma {:induction false} CountOneMore(slots: seq<nat>, block: nat)
    requires block < |slots|
    ensures CountUsed(slots[..block + 1]) == CountUsed(slots[..block]) + if slots[block] != NO_SLOT then 1 else 0
  {
    assert slots[..block + 1][..block] == slots[..block];
  }

  lemma DistinctPrefix(slots: seq<nat>, count: nat, n: nat)
    requires n <= |slots| && SlotsDistinct(slots, count)
    ensures SlotsDistinct(slots[..n], count)
  {
  }

  /** The loop over the slot maps, in the order of the source. */
  method CheckSlots(linear: seq<nat>, full: seq<nat>, linearLayers: nat, fullLayers: nat) returns (ok: bool)
    requires |linear| == |full| && linearLayers <= U32_MAX && fullLayers <= U32_MAX
    ensures ok <==> OneKind(linear, full) && SlotBijection(linear, linearLayers) && SlotBijection(full, fullLayers)
  {
    hide SlotsDistinct, SlotBijection, CountUsed;
    BijectionDistinct(linear, linearLayers);
    BijectionDistinct(full, fullLayers);
    var linearSlots, fullSlots := 0, 0;
    NoSlots(linear, linearLayers);
    NoSlots(full, fullLayers);
    for block := 0 to |linear|
      invariant forall b :: 0 <= b < block ==> (linear[b] == NO_SLOT <==> full[b] != NO_SLOT)
      invariant SlotsDistinct(linear[..block], linearLayers) && SlotsDistinct(full[..block], fullLayers)
      invariant linearSlots == CountUsed(linear[..block]) && fullSlots == CountUsed(full[..block])
    {
      if (linear[block] != NO_SLOT) == (full[block] != NO_SLOT) {
        return false;
      }
      CountOneMore(linear, block);
      CountOneMore(full, block);
      OneMoreSlot(linear, linearLayers, block);
      OneMoreSlot(full, fullLayers, block);
      if linear[block] != NO_SLOT {
        ok := CheckSlot(linear, linearLayers, block);
        linearSlots := linearSlots + 1;
      } else {
        ok := CheckSlot(full, fullLayers, block);
        fullSlots := fullSlots + 1;
      }
      if !ok {
        NotDistinct(linear, linearLayers, block + 1);
        NotDistinct(full, fullLayers, block + 1);
        return;
      }
    }
    assert linear[..|linear|] == linear && full[..|full|] == full;
    CountDecides(linear, linearLayers);
    CountDecides(full, fullLayers);
    ok := linearSlots == linearLayers && fullSlots == fullLayers;
  }

  lemma BijectionDistinct(slots: seq<nat>, count: nat)
    ensures SlotBijection(slots, count) ==> SlotsDistinct(slots, count)
  {
  }

  lemma NotDistinct(slots: seq<nat>, count: nat, n: nat)
    requires n <= |slots|
    ensures SlotsDistinct(slots, count) ==> SlotsDistinct(slots[..n], count)
  {
    if SlotsDistinct(slots, count) {
      DistinctPrefix(slots, count, n);
    }
  }

  lemma NoSlots(slots: seq<nat>, count: nat)
    ensures SlotsDistinct(slots[..0], count) && CountUsed(slots[..0]) == 0
  {
  }

  /** No vector is longer than the platform allows. */
  predicate CapacityFits(l: Layout, maxLengths: nat, maxFloats: nat) {
    && l.fullLayers <= maxLengths
    && l.linearLayers * l.convolutionFloats <= maxFloats
    && l.linearLayers * l.recurrentFloats <= maxFloats
    && l.fullLayers * l.kvFloats <= maxFloats
  }

  method RequireValidLayout(l: Layout, maxLengths: nat, maxFloats: nat) returns (ok: bool)
    requires Widths(l)
    ensures ok <==> Sound(l) && CapacityFits(l, maxLengths, maxFloats)
  {
    hide SlotBijection, OneKind, QkvChannels;
    if l.blockCount == 0 || |l.linearSlots| != l.blockCount || |l.fullSlots| != l.blockCount || !Nonzero(l) {
      return false;
    }
    var sizes := LayerSizes(l.maxContextTokens, l.convolutionWidth, l.keyHeads, l.valueHeads, l.linearHeadDim,
                            l.kvHeads, l.fullHeadDim);
    if sizes.None? || sizes.value != (l.qkvChannels, l.convolutionFloats, l.recurrentFloats, l.kvFloats) {
      return false;
    }
    ok := CheckSlots(l.linearSlots, l.fullSlots, l.linearLayers, l.fullLayers);
    if !ok {
      return;
    }
    var bytes := TotalBytes(l.linearLayers, l.fullLayers, l.convolutionFloats, l.recurrentFloats, l.kvFloats);
    if bytes.None? || bytes.value != (l.convolutionBytes, l.recurrentBytes, l.kvBytes) {
      return false;
    }
    ok := CapacityFits(l, maxLengths, maxFloats);
  }

  /** The inputs are usable, every size fits, and so does every vector. */
  predicate Admissible(c: Config, maxContext: nat, maxLengths: nat, maxFloats: nat) {
    && NonzeroInputs(c, maxContext) && InOrder(c.blocks) && |c.blocks| <= U32_MAX
    && SizesFit(c, maxContext) && VectorsFit(c, maxContext, maxLengths, maxFloats)
  }

  lemma CapacityDescribed(c: Config, maxContext: nat, maxLengths: nat, maxFloats: nat, l: Layout)
    requires Describes(c, maxContext, l) && Sound(l)
    ensures CapacityFits(l, maxLengths, maxFloats) <==> VectorsFit(c, maxContext, maxLengths, maxFloats)
  {
    hide CountKind, SlotBijection, QkvChannels, SlotsInOrder, OneKind;
  }

  /** A layout that was created passes its own validation unless a vector would be too long. */
  method CreateThenValidate(c: Config, maxContext: nat, maxLengths: nat, maxFloats: nat) returns (r: Result<Layout>)
    requires ConfigWidths(c) && maxContext <= U32_MAX
    ensures r.Ok? <==> Admissible(c, maxContext, maxLengths, maxFloats)
    ensures r.Ok? ==> Describes(c, maxContext, r.value) && Sound(r.value) && Widths(r.value)
  {
    hide Widths, Sound, CapacityFits, SizesFit, VectorsFit;
    r := Create(c, maxContext);
    if r.Err? {
      return;
    }
    CapacityDescribed(c, maxContext, maxLengths, maxFloats, r.value);
    var ok := RequireValidLayout(r.value, maxLengths, maxFloats);
    if !ok {
      return Err;
    }
  }

  /** A configuration describes one layout. */
  lemma LayoutUnique(c: Config, maxContext: nat, l: Layout)
    requires Describes(c, maxContext, l) && Sound(l)
    ensures forall m :: Describes(c, maxContext, m) && Sound(m) ==> m == l
  {
    hide CountKind, SlotBijection, QkvChannels;
  }

  // ----- what a sound layout means for the buffers -----

  /** Every position of a buffer lies in the span of exactly one block. */
  lemma SpansTile(slots: seq<nat>, count: nat, size: nat, position: nat) returns (block: nat)
    requires SlotBijection(slots, count) && count <= U32_MAX && position < Offset(count, size)
    ensures block < |slots| && slots[block] != NO_SLOT
    ensures Offset(slots[block], size) <= position < Offset(slots[block], size) + size <= Offset(count, size)
    ensures forall b :: 0 <= b < |slots| && slots[b] != NO_SLOT && b != block ==>
      !(Offset(slots[b], size) <= position < Offset(slots[b], size) + size)
  {
    var s := CellRow(count, size, position);
    assert Taken(slots, s);
    block :| 0 <= block < |slots| && slots[block] == s;
    RowInside(count, size, s);
    forall b | 0 <= b < |slots| && slots[b] != NO_SLOT && b != block
      ensures !(Offset(slots[b], size) <= position < Offset(slots[b], size) + size)
    {
      SlotsApart(slots[b], s, size);
    }
  }

  /** Different slots have disjoint spans. */
  lemma SlotsApart(r: nat, s: nat, w: nat)
    requires r != s
    ensures Offset(r, w) + w <= Offset(s, w) || Offset(s, w) + w <= Offset(r, w)
  {
    if r < s {
      RowsApart(w, r, s);
    } else {
      RowsApart(w, s, r);
    }
  }

  // ----- the plan in closed form -----

  lemma {:induction false} FullBefore(blocks: seq<BlockPlan>, interval: nat, n: nat)
    requires interval > 0 && n <= |blocks| && PlanOf(blocks, |blocks|, interval)
    ensures CountKind(blocks[..n], FullAttention) == n / interval
    ensures CountKind(blocks[..n], LinearAttention) == n - n / interval
    decreases n
  {
    if n > 0 {
      FullBefore(blocks, interval, n - 1);
      assert blocks[..n][..n - 1] == blocks[..n - 1];
      NextQuotient(n, interval);
    } else {
      ZeroQuotient(interval);
    }
  }

  lemma ZeroQuotient(interval: nat)
    requires interval > 0
    ensures 0 / interval == 0
  {
  }

  lemma NextQuotient(n: nat, interval: nat)
    requires interval > 0 && n > 0
    ensures n / interval == (n - 1) / interval + if n % interval == 0 then 1 else 0
  {
    var q, r := (n - 1) / interval, (n - 1) % interval;
    assert n - 1 == interval * q + r;
    if r == interval - 1 {
      assert n == interval * (q + 1);
      QuotientUnique(n, interval, q + 1, 0);
    } else {
      QuotientUnique(n, interval, q, r + 1);
    }
  }

  /** From the interval alone: which blocks attend fully, how many, and every slot. */
  lemma PlanClosedForm(c: Config, maxContext: nat, l: Layout, interval: nat, b: nat)
    requires interval > 0 && PlanOf(c.blocks, |c.blocks|, interval) && |c.blocks| <= U32_MAX
    requires Describes(c, maxContext, l) && b < |c.blocks|
    ensures l.fullLayers == |c.blocks| / interval && l.linearLayers == |c.blocks| - |c.blocks| / interval
    ensures l.fullSlots[b] != NO_SLOT <==> (b + 1) % interval == 0
    ensures (b + 1) % interval == 0 ==> l.fullSlots[b] == (b + 1) / interval - 1
    ensures (b + 1) % interval != 0 ==> l.linearSlots[b] == b - b / interval
  {
    hide CountKind;
    assert c.blocks[..|c.blocks|] == c.blocks;
    FullBefore(c.blocks, interval, |c.blocks|);
    FullBefore(c.blocks, interval, b);
    NextQuotient(b + 1, interval);
  }
}
