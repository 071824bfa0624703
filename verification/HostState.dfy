/** The host's copy of a session's state: how many tokens are in, how long each key-value
    cache is, and, when tensors are kept on the host, the buffers themselves. */
module HostState {
  import opened Prelude
  import opened Matrix
  import opened Scalars
  import opened StateLayout
  import Kernels

  class HostState {
    const layout: Layout
    /** Whether the buffers are kept here or only the lengths. */
    const hasTensorStorage: bool
    var position: nat
    const fullKvLengths: array<nat>
    const linearConvolution: array<Scalar>
    const linearRecurrent: array<Scalar>
    const fullKv: array<Scalar>

    ghost predicate Valid()
      reads this
    {
      && Sound(layout) && Widths(layout) && position <= layout.maxContextTokens
      && fullKvLengths.Length == layout.fullLayers
      && linearConvolution.Length == BufferLength(layout.linearLayers, layout.convolutionFloats)
      && linearRecurrent.Length == BufferLength(layout.linearLayers, layout.recurrentFloats)
      && fullKv.Length == BufferLength(layout.fullLayers, layout.kvFloats)
      && linearConvolution != linearRecurrent && linearRecurrent != fullKv && linearConvolution != fullKv
    }

    ghost function BufferLength(layers: nat, floats: nat): nat {
      if hasTensorStorage then Offset(layers, floats) else 0
    }

    /** Every cache is as long as the position. */
    ghost predicate Lockstep()
      reads this, fullKvLengths
    {
      forall i :: 0 <= i < fullKvLengths.Length ==> fullKvLengths[i] == position
    }

    constructor (layout: Layout, hasTensorStorage: bool)
      requires Sound(layout) && Widths(layout)
      ensures Valid() && Lockstep() && position == 0
      ensures this.layout == layout && this.hasTensorStorage == hasTensorStorage
      ensures fresh(fullKvLengths) && fresh(linearConvolution) && fresh(linearRecurrent) && fresh(fullKv)
    {
      hide Sound, Widths;
      this.layout := layout;
      this.hasTensorStorage := hasTensorStorage;
      position := 0;
      fullKvLengths := new nat[layout.fullLayers](_ => 0);
      linearConvolution := new Scalar[if hasTensorStorage then Offset(layout.linearLayers, layout.convolutionFloats) else 0](_ => Zero);
      linearRecurrent := new Scalar[if hasTensorStorage then Offset(layout.linearLayers, layout.recurrentFloats) else 0](_ => Zero);
      fullKv := new Scalar[if hasTensorStorage then Offset(layout.fullLayers, layout.kvFloats) else 0](_ => Zero);
    }

    // ----- spans -----

    /** Where the buffer of a layer starts, or none when the layer is of the other kind, does
        not exist, or no buffers are kept. */
    function SpanStart(slots: seq<nat>, floats: nat, layer: nat): (r: Option<nat>)
      ensures r.Some? <==> hasTensorStorage && layer < |slots| && slots[layer] != NO_SLOT
      ensures r.Some? ==> r.value == Offset(slots[layer], floats)
    {
      if !hasTensorStorage || layer >= |slots| || slots[layer] == NO_SLOT then None
      else Some(Offset(slots[layer], floats))
    }

    /** A key-value length, by layer. */
    function FullKvLength(layer: nat): (r: Option<nat>)
      requires Valid()
      reads this, fullKvLengths
      ensures r.Some? <==> layer < layout.blockCount && layout.fullSlots[layer] != NO_SLOT
      ensures r.Some? && Lockstep() ==> r.value == position
    {
      if layer >= |layout.fullSlots| || layout.fullSlots[layer] == NO_SLOT then None
      else Some(fullKvLengths[layout.fullSlots[layer]])
    }

    // ----- operations -----

    /** Advances every length by `count`, or changes nothing. */
    method CommitTokens(count: nat) returns (ok: bool)
      requires Valid() && count <= U32_MAX
      modifies this`position, fullKvLengths
      ensures Valid()
      ensures ok <==> old(position) + count <= layout.maxContextTokens
                      && forall i :: 0 <= i < fullKvLengths.Length ==> old(fullKvLengths[i]) + count <= layout.maxContextTokens
      ensures position == old(position) + if ok then count else 0
      ensures forall i :: 0 <= i < fullKvLengths.Length ==>
        fullKvLengths[i] == old(fullKvLengths[i]) + if ok then count else 0
    {
      hide Sound, Widths, Offset;
      if count > layout.maxContextTokens || position > layout.maxContextTokens - count {
        return false;
      }
      var next := position + count;
      for i := 0 to fullKvLengths.Length
        invariant forall j :: 0 <= j < i ==> fullKvLengths[j] + count <= layout.maxContextTokens
      {
        if fullKvLengths[i] > layout.maxContextTokens - count {
          return false;
        }
      }
      position := next;
      for i := 0 to fullKvLengths.Length
        invariant position == next
        invariant forall j :: 0 <= j < fullKvLengths.Length ==>
          fullKvLengths[j] == old(fullKvLengths[j]) + if j < i then count else 0
      {
        fullKvLengths[i] := fullKvLengths[i] + count;
      }
      ok := true;
    }

    method Reset()
      requires Valid()
      modifies this`position, fullKvLengths, linearConvolution, linearRecurrent, fullKv
      ensures Valid() && Lockstep() && position == 0
      ensures forall i :: 0 <= i < linearConvolution.Length ==> linearConvolution[i] == Zero
      ensures forall i :: 0 <= i < linearRecurrent.Length ==> linearRecurrent[i] == Zero
      ensures forall i :: 0 <= i < fullKv.Length ==> fullKv[i] == Zero
    {
      hide Sound, Widths, Offset;
      position := 0;
      for i := 0 to fullKvLengths.Length
        invariant position == 0 && forall j :: 0 <= j < i ==> fullKvLengths[j] == 0
      {
        fullKvLengths[i] := 0;
      }
      Kernels.Fill(linearConvolution, Zero);
      Kernels.Fill(linearRecurrent, Zero);
      Kernels.Fill(fullKv, Zero);
    }
  }

  /** The spans of two layers of one kind lie inside the buffer and do not overlap. */
  lemma SpansDisjoint(state: HostState, slots: seq<nat>, count: nat, floats: nat, a: nat, b: nat)
    requires SlotBijection(slots, count) && a != b
    requires state.SpanStart(slots, floats, a).Some? && state.SpanStart(slots, floats, b).Some?
    ensures
      var s, t := state.SpanStart(slots, floats, a).value, state.SpanStart(slots, floats, b).value;
      && s + floats <= Offset(count, floats) && t + floats <= Offset(count, floats)
      && (s + floats <= t || t + floats <= s)
  {
    RowInside(count, floats, slots[a]);
    RowInside(count, floats, slots[b]);
    SlotsApart(slots[a], slots[b], floats);
  }
}
