/** The GGUF reader: a cursor over the file's bytes with a storage budget. */
module GgufReader {
  import opened Prelude
  import opened Gguf
  import opened Parsing
  import opened GgufParse

  class Reader {
    const bytes: seq<byte>
    const limits: Limits
    var position: nat
    var catalogBytes: nat

    ghost predicate Valid()
      reads this
    {
      && position <= |bytes| <= U64_MAX
      && catalogBytes <= limits.maxCatalogBytes <= U64_MAX
    }

    ghost function Rest(): seq<byte>
      requires Valid()
      reads this
    {
      bytes[position..]
    }

    /** A read succeeded exactly when the parse did, moved as far and charged as much. */
    ghost predicate Follows<S, T>(p: Taken<S>, r: Result<T>)
      reads this
    {
      Valid() && (r.Ok? <==> p.Took?) && (r.Ok? ==> Rest() == p.rest && catalogBytes == p.charged)
    }

    constructor (bytes: seq<byte>, limits: Limits)
      requires |bytes| <= U64_MAX && limits.maxCatalogBytes <= U64_MAX
      ensures this.bytes == bytes && this.limits == limits
      ensures Valid() && position == 0 && Rest() == bytes && catalogBytes == 0
    {
      this.bytes, this.limits := bytes, limits;
      position, catalogBytes := 0, 0;
    }

    method ReadUnsigned(k: nat) returns (r: Result<nat>)
      requires Valid()
      modifies `position
      ensures Valid()
      ensures r.Ok? <==> ParseNat(k, old(Rest())).Got?
      ensures r.Ok? ==> r.value == ParseNat(k, old(Rest())).value && Rest() == ParseNat(k, old(Rest())).rest
      ensures r.Ok? ==> r.value < Pow256(k)
      ensures r.Err? ==> position == old(position)
    {
      if k > |bytes| - position {
        return Err;
      }
      ghost var raw := bytes[position..position + k];
      var value, scale := 0, 1;
      for index := 0 to k
        invariant position == old(position)
        invariant scale == Pow256(index)
        invariant value == FromLittleEndian(raw[..index])
      {
        FromLittleEndianSnoc(raw[..index], raw[index]);
        assert raw[..index] + [raw[index]] == raw[..index + 1];
        var digit: nat := bytes[position + index];
        value := value + digit * scale;
        scale := 256 * scale;
      }
      assert raw[..k] == raw && Rest()[..k] == raw && Rest()[k..] == bytes[position + k..];
      FromLittleEndianBound(raw);
      position := position + k;
      r := Ok(value);
    }

    method ReadBytes(k: nat) returns (r: Result<seq<byte>>)
      requires Valid()
      modifies `position
      ensures Valid()
      ensures r.Ok? <==> k <= |old(Rest())|
      ensures r.Ok? ==> r.value == old(Rest())[..k] && Rest() == old(Rest())[k..]
      ensures r.Err? ==> position == old(position)
    {
      if k > |bytes| - position {
        return Err;
      }
      position := position + k;
      r := Ok(bytes[position - k..position]);
    }

    method Charge(amount: nat) returns (ok: bool)
      requires Valid()
      modifies `catalogBytes
      ensures Valid()
      ensures ok <==> old(catalogBytes) + amount <= limits.maxCatalogBytes
      ensures catalogBytes == old(catalogBytes) + (if ok then amount else 0)
    {
      var charged := CheckedAdd(catalogBytes, amount, U64_MAX);
      ok := charged.Some? && charged.value <= limits.maxCatalogBytes;
      if ok {
        catalogBytes := charged.value;
      }
    }

    method ReadString() returns (r: Result<seq<byte>>)
      requires Valid()
      modifies `position, `catalogBytes
      ensures Follows(TakeString(old(Rest()), old(catalogBytes), limits), r)
      ensures r.Ok? ==> r.value == TakeString(old(Rest()), old(catalogBytes), limits).value
    {
      hide FromLittleEndian, Pow256;
      var length := ReadUnsigned(8);
      if length.Err? || length.value > limits.maxStringBytes || length.value > |bytes| - position {
        return Err;
      }
      var charged := Charge(length.value);
      if !charged {
        return Err;
      }
      r := ReadBytes(length.value);
    }

    /** A value of a non-array type. Its storage is charged before it is read. */
    method ReadScalar(t: MetadataType) returns (r: Result<MetadataValue>)
      requires Valid()
      modifies `position, `catalogBytes
      ensures Follows(TakeScalar(t, old(Rest()), old(catalogBytes), limits), r)
      ensures r.Ok? ==> r.value == TakeScalar(t, old(Rest()), old(catalogBytes), limits).value
    {
      hide ScalarOf, FromLittleEndian, Pow256, TakeString;
      if t == TArray {
        return Err;
      }
      if t == TString {
        var s := ReadString();
        return if s.Ok? then Ok(Str(s.value)) else Err;
      }
      var k := Width(t);
      var charged := Charge(k);
      if !charged {
        return Err;
      }
      var raw := ReadUnsigned(k);
      if raw.Err? {
        return Err;
      }
      var v := ScalarOf(t, raw.value);
      r := if v.Some? then Ok(v.value) else Err;
    }

    method ReadArray() returns (r: Result<MetadataValue>)
      requires Valid()
      modifies `position, `catalogBytes
      ensures Follows(TakeArray(old(Rest()), old(catalogBytes), limits), r)
      ensures r.Ok? ==> r.value == TakeArray(old(Rest()), old(catalogBytes), limits).value
    {
      hide ParseNat, TakeElements;
      var rawType := ReadUnsigned(4);
      if rawType.Err? || TypeOfCode(rawType.value).None? {
        return Err;
      }
      var elementType := TypeOfCode(rawType.value).value;
      if elementType == TArray {
        return Err;
      }
      var length := ReadUnsigned(8);
      if length.Err? || length.value > limits.maxArrayElements {
        return Err;
      }
      var storage := CheckedMul(length.value, limits.valueBytes, U64_MAX);
      if storage.None? {
        return Err;
      }
      var charged := Charge(storage.value);
      if !charged {
        return Err;
      }
      var values := ReadElements(elementType, length.value);
      if values.Err? {
        return Err;
      }
      r := Ok(Arr(elementType, values.value));
    }

    method ReadElements(t: MetadataType, n: nat) returns (r: Result<seq<MetadataValue>>)
      requires Valid()
      modifies `position, `catalogBytes
      ensures Follows(TakeElements(t, n, old(Rest()), old(catalogBytes), limits), r)
      ensures r.Ok? ==> r.value == TakeElements(t, n, old(Rest()), old(catalogBytes), limits).value
    {
      hide TakeScalar, TakeElements;
      ghost var whole := TakeElements(t, n, Rest(), catalogBytes, limits);
      var values := [];
      NothingBefore(whole);
      for index := 0 to n
        invariant Valid()
        invariant whole == After(values, TakeElements(t, n - index, Rest(), catalogBytes, limits))
      {
        ElementStep(t, n - index, Rest(), catalogBytes, limits, values);
        var v := ReadScalar(t);
        if v.Err? {
          return Err;
        }
        values := values + [v.value];
      }
      NoElements(t, Rest(), catalogBytes, limits, values);
      r := Ok(values);
    }

    method ReadValue(t: MetadataType) returns (r: Result<MetadataValue>)
      requires Valid()
      modifies `position, `catalogBytes
      ensures Follows(TakeValue(t, old(Rest()), old(catalogBytes), limits), r)
      ensures r.Ok? ==> r.value == TakeValue(t, old(Rest()), old(catalogBytes), limits).value
    {
      hide TakeArray, TakeScalar;
      if t == TArray {
        r := ReadArray();
      } else {
        r := ReadScalar(t);
      }
    }
  }

  /** A parse whose value continues what was read before. */
  function After<T>(done: seq<T>, p: Taken<seq<T>>): Taken<seq<T>> {
    if p.Stuck? then Stuck else Took(done + p.value, p.rest, p.charged)
  }

  lemma NothingBefore<T>(p: Taken<seq<T>>)
    ensures p == After([], p)
  {
    if p.Took? {
      assert [] + p.value == p.value;
    }
  }

  lemma {:induction false} ElementStep(t: MetadataType, n: nat, bs: seq<byte>, charged: nat, limits: Limits, done: seq<MetadataValue>)
    requires n > 0
    ensures
      var p := TakeScalar(t, bs, charged, limits);
      After(done, TakeElements(t, n, bs, charged, limits))
      == if p.Stuck? then Stuck else After(done + [p.value], TakeElements(t, n - 1, p.rest, p.charged, limits))
  {
    hide TakeScalar;
    var p := TakeScalar(t, bs, charged, limits);
    if p.Took? && TakeElements(t, n - 1, p.rest, p.charged, limits).Took? {
      Associate(done, [p.value], TakeElements(t, n - 1, p.rest, p.charged, limits).value);
    }
  }

  lemma NoElements(t: MetadataType, bs: seq<byte>, charged: nat, limits: Limits, done: seq<MetadataValue>)
    ensures After(done, TakeElements(t, 0, bs, charged, limits)) == Took(done, bs, charged)
  {
    assert done + [] == done;
  }

  lemma {:induction false} FromLittleEndianSnoc(bs: seq<byte>, b: byte)
    ensures FromLittleEndian(bs + [b]) == FromLittleEndian(bs) + b * Pow256(|bs|)
    decreases |bs|
  {
    if |bs| > 0 {
      FromLittleEndianSnoc(bs[1..], b);
      assert (bs + [b])[1..] == bs[1..] + [b];
      assert 256 * (b * Pow256(|bs| - 1)) == b * Pow256(|bs|);
    } else {
      assert [b][1..] == [];
    }
  }
}
