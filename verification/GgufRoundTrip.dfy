/** What the GGUF reader accepts is exactly what the format writes: well-formed parts within the
    limits, and nothing else. */
module GgufRoundTrip {
  import opened Prelude
  import opened Gguf
  import opened Parsing
  import opened GgufParse

  /** The reader's limits in the machine types that hold them. */
  predicate LimitsFit(limits: Limits) {
    && limits.maxMetadata <= U64_MAX && limits.maxTensors <= U64_MAX && limits.maxStringBytes <= U64_MAX
    && limits.maxArrayElements <= U64_MAX && limits.maxCatalogBytes <= U64_MAX && limits.maxRank <= U32_MAX
  }

  // ----- strings and scalars -----

  /** What comes of a well-formed part: it is taken unless the storage limit is passed. */
  function Within<T>(v: T, rest: seq<byte>, charged: nat, limits: Limits): Taken<T> {
    if charged <= limits.maxCatalogBytes then Took(v, rest, charged) else Stuck
  }

  lemma {:induction false} StringWritten(s: seq<byte>, rest: seq<byte>, charged: nat, limits: Limits)
    requires |s| <= limits.maxStringBytes <= U64_MAX
    ensures TakeString(EncodeString(s) + rest, charged, limits) == Within(s, rest, charged + |s|, limits)
  {
    hide LittleEndian, Pow256, ParseNat;
    Pow256Values();
    NatPrinted(8, |s|, s + rest);
    Associate(LittleEndian(|s|, 8), s, rest);
    assert (s + rest)[..|s|] == s && (s + rest)[|s|..] == rest;
  }

  lemma {:induction false} StringRead(bs: seq<byte>, charged: nat, limits: Limits)
    requires TakeString(bs, charged, limits).Took?
    ensures
      var p := TakeString(bs, charged, limits);
      && |p.value| <= limits.maxStringBytes && bs == EncodeString(p.value) + p.rest
      && p.charged == charged + |p.value| <= limits.maxCatalogBytes
  {
    hide LittleEndian, Pow256, ParseNat;
    NatParsed(8, bs);
    var p := TakeString(bs, charged, limits);
    Associate(LittleEndian(|p.value|, 8), p.value, p.rest);
    assert p.value + p.rest == ParseNat(8, bs).rest;
  }

  lemma {:induction false} ScalarWrittenTaken(v: MetadataValue, rest: seq<byte>, charged: nat, limits: Limits)
    requires WellFormedScalar(v, limits) && limits.maxStringBytes <= U64_MAX
    ensures FitsType(v) && v.Type() != TArray
    ensures TakeScalar(v.Type(), EncodeScalar(v) + rest, charged, limits) == Within(v, rest, charged + ScalarCharge(v), limits)
  {
    hide LittleEndian, FromLittleEndian, Pow256, FitsType, EncodeScalar, EncodeString, TakeString, ScalarOf;
    NotArray(v);
    if v.Str? {
      StringEncodes(v);
      StringWritten(v.text, rest, charged, limits);
    } else {
      var k := Width(v.Type());
      ScalarWritten(v);
      CodeRead(v);
      NatPrinted(k, CodeOf(v), rest);
    }
  }

  lemma StringEncodes(v: MetadataValue)
    requires v.Str?
    ensures FitsType(v) && EncodeScalar(v) == EncodeString(v.text)
  {
  }

  lemma {:induction false} ScalarRead(t: MetadataType, bs: seq<byte>, charged: nat, limits: Limits)
    requires TakeScalar(t, bs, charged, limits).Took?
    ensures
      var p := TakeScalar(t, bs, charged, limits);
      && t != TArray && p.value.Type() == t && WellFormedScalar(p.value, limits) && FitsType(p.value)
      && bs == EncodeScalar(p.value) + p.rest
      && p.charged == charged + ScalarCharge(p.value) <= limits.maxCatalogBytes
  {
    hide LittleEndian, FromLittleEndian, Pow256, FitsType, EncodeScalar, EncodeString, TakeString, ScalarOf;
    var p := TakeScalar(t, bs, charged, limits);
    if t == TString {
      StringRead(bs, charged, limits);
      StringEncodes(p.value);
    } else {
      NatParsed(Width(t), bs);
      CodeGiven(t, FromLittleEndian(bs[..Width(t)]));
      ScalarWritten(p.value);
    }
  }

  // ----- values -----

  lemma {:induction false} ElementsFit(t: MetadataType, values: seq<MetadataValue>, limits: Limits)
    requires WellFormedElements(t, values, limits)
    ensures forall i :: 0 <= i < |values| ==> FitsType(values[i])
    ensures |values| > 0 ==> t != TArray && WellFormedElements(t, values[1..], limits)
  {
    hide FitsType;
    if |values| > 0 {
      NotArray(values[0]);
    }
  }

  lemma {:induction false} ElementsWritten(t: MetadataType, values: seq<MetadataValue>, rest: seq<byte>, charged: nat, limits: Limits)
    requires WellFormedElements(t, values, limits) && limits.maxStringBytes <= U64_MAX && charged <= limits.maxCatalogBytes
    ensures forall i :: 0 <= i < |values| ==> FitsType(values[i])
    ensures TakeElements(t, |values|, EncodeElements(values) + rest, charged, limits)
            == Within(values, rest, charged + ElementsCharge(values), limits)
    decreases |values|
  {
    hide FitsType, EncodeScalar, TakeScalar, ScalarCharge;
    ElementsFit(t, values, limits);
    if |values| > 0 {
      var tail := EncodeElements(values[1..]) + rest;
      Associate(EncodeScalar(values[0]), EncodeElements(values[1..]), rest);
      ScalarWrittenTaken(values[0], tail, charged, limits);
      if charged + ScalarCharge(values[0]) <= limits.maxCatalogBytes {
        ElementsWritten(t, values[1..], rest, charged + ScalarCharge(values[0]), limits);
        assert values == [values[0]] + values[1..];
      }
    } else {
      assert EncodeElements(values) + rest == rest;
    }
  }

  lemma {:induction false} ElementsRead(t: MetadataType, n: nat, bs: seq<byte>, charged: nat, limits: Limits)
    requires TakeElements(t, n, bs, charged, limits).Took? && charged <= limits.maxCatalogBytes
    ensures
      var p := TakeElements(t, n, bs, charged, limits);
      && |p.value| == n && WellFormedElements(t, p.value, limits)
      && (forall i :: 0 <= i < |p.value| ==> FitsType(p.value[i]))
      && bs == EncodeElements(p.value) + p.rest
      && p.charged == charged + ElementsCharge(p.value) <= limits.maxCatalogBytes
  {
    hide FitsType, EncodeScalar, TakeScalar, ScalarCharge, WellFormedScalar;
    var p := TakeElements(t, n, bs, charged, limits);
    if n > 0 {
      var first := TakeScalar(t, bs, charged, limits);
      ScalarRead(t, bs, charged, limits);
      ElementsRead(t, n - 1, first.rest, first.charged, limits);
      assert p.value[1..] == TakeElements(t, n - 1, first.rest, first.charged, limits).value;
      assert p.value[0] == first.value && FitsType(p.value[0]);
      ElementsJoin(t, p.value, limits);
      Associate(EncodeScalar(p.value[0]), EncodeElements(p.value[1..]), p.rest);
    } else {
      assert EncodeElements(p.value) + p.rest == p.rest;
    }
  }

  lemma ElementsJoin(t: MetadataType, values: seq<MetadataValue>, limits: Limits)
    requires |values| > 0 && values[0].Type() == t && WellFormedScalar(values[0], limits)
    requires WellFormedElements(t, values[1..], limits)
    ensures WellFormedElements(t, values, limits)
    ensures forall i :: 0 <= i < |values| ==> FitsType(values[i])
  {
    hide FitsType;
    assert forall i :: 0 < i < |values| ==> values[i] == values[1..][i - 1];
  }

  lemma {:induction false} ArrayWritten(v: MetadataValue, rest: seq<byte>, charged: nat, limits: Limits)
    requires v.Arr? && WellFormedValue(v, limits) && LimitsFit(limits) && charged <= limits.maxCatalogBytes
    ensures TakeArray(EncodeValue(v, limits) + rest, charged, limits) == Within(v, rest, charged + ValueCharge(v, limits), limits)
  {
    hide LittleEndian, Pow256, ParseNat, TakeElements, EncodeElements, WellFormedElements, TypeOfCode, MetadataType.Code;
    var n, t := |v.values|, v.elementType;
    CodeOfType(t);
    Pow256Values();
    ElementsFitHidden(t, v.values, limits);
    var size, elements := LittleEndian(n, 8), EncodeElements(v.values);
    Associate(LittleEndian(t.Code(), 4), size + elements, rest);
    Associate(size, elements, rest);
    NatPrinted(4, t.Code(), size + (elements + rest));
    NatPrinted(8, n, elements + rest);
    if charged + n * limits.valueBytes <= limits.maxCatalogBytes {
      ElementsWritten(t, v.values, rest, charged + n * limits.valueBytes, limits);
    }
  }

  lemma ElementsFitHidden(t: MetadataType, values: seq<MetadataValue>, limits: Limits)
    requires WellFormedElements(t, values, limits)
    ensures forall i :: 0 <= i < |values| ==> FitsType(values[i])
  {
    ElementsFit(t, values, limits);
  }

  lemma {:induction false} ArrayRead(bs: seq<byte>, charged: nat, limits: Limits)
    requires TakeArray(bs, charged, limits).Took?
    ensures
      var p := TakeArray(bs, charged, limits);
      && p.value.Arr? && WellFormedValue(p.value, limits) && bs == EncodeValue(p.value, limits) + p.rest
      && p.charged == charged + ValueCharge(p.value, limits) <= limits.maxCatalogBytes
  {
    hide LittleEndian, Pow256, ParseNat, TakeElements, EncodeElements, WellFormedElements, TypeOfCode, MetadataType.Code;
    var code := ParseNat(4, bs);
    var size := ParseNat(8, code.rest);
    NatParsed(4, bs);
    NatParsed(8, code.rest);
    CodeIsArray(code.value);
    var t := TypeOfCode(code.value).value;
    ElementsRead(t, size.value, size.rest, charged + size.value * limits.valueBytes, limits);
    var p := TakeArray(bs, charged, limits);
    var elements := EncodeElements(p.value.values);
    Associate(LittleEndian(size.value, 8), elements, p.rest);
    Associate(LittleEndian(code.value, 4), LittleEndian(size.value, 8) + elements, p.rest);
  }

  lemma {:induction false} ValueWritten(v: MetadataValue, rest: seq<byte>, charged: nat, limits: Limits)
    requires WellFormedValue(v, limits) && LimitsFit(limits) && charged <= limits.maxCatalogBytes
    ensures TakeValue(v.Type(), EncodeValue(v, limits) + rest, charged, limits) == Within(v, rest, charged + ValueCharge(v, limits), limits)
  {
    hide TakeArray, TakeScalar, EncodeScalar, FitsType;
    if v.Arr? {
      ArrayWritten(v, rest, charged, limits);
    } else {
      ScalarWrittenTaken(v, rest, charged, limits);
    }
  }

  lemma {:induction false} ValueRead(t: MetadataType, bs: seq<byte>, charged: nat, limits: Limits)
    requires TakeValue(t, bs, charged, limits).Took?
    ensures
      var p := TakeValue(t, bs, charged, limits);
      && p.value.Type() == t && WellFormedValue(p.value, limits) && bs == EncodeValue(p.value, limits) + p.rest
      && p.charged == charged + ValueCharge(p.value, limits) <= limits.maxCatalogBytes
  {
    hide TakeArray, TakeScalar, EncodeScalar, FitsType;
    if t == TArray {
      ArrayRead(bs, charged, limits);
    } else {
      ScalarRead(t, bs, charged, limits);
    }
  }

  // ----- entries -----

  ghost predicate GoodEntry(e: Entry, limits: Limits) {
    ValidKey(e.key) && |e.key| <= limits.maxStringBytes && WellFormedValue(e.value, limits)
  }

  ghost predicate GoodEntries(entries: seq<Entry>, limits: Limits) {
    && (forall i :: 0 <= i < |entries| ==> GoodEntry(entries[i], limits))
    && (forall i, j :: 0 <= i < j < |entries| ==> entries[i].key != entries[j].key)
  }

  lemma {:induction false} EntryWritten(e: Entry, rest: seq<byte>, charged: nat, limits: Limits)
    requires GoodEntry(e, limits) && LimitsFit(limits) && charged <= limits.maxCatalogBytes
    ensures TakeEntry(EncodeEntry(e, limits) + rest, charged, limits)
            == Within(e, rest, charged + |e.key| + ValueCharge(e.value, limits), limits)
  {
    hide LittleEndian, Pow256, ParseNat, TakeString, TakeValue, EncodeString, EncodeValue, WellFormedValue, ValidKey,
         TypeOfCode, MetadataType.Code, ValueCharge;
    var t, payload := e.value.Type(), EncodeValue(e.value, limits);
    CodeOfType(t);
    Associate(EncodeString(e.key), LittleEndian(t.Code(), 4) + payload, rest);
    Associate(LittleEndian(t.Code(), 4), payload, rest);
    StringWritten(e.key, LittleEndian(t.Code(), 4) + (payload + rest), charged, limits);
    NatPrinted(4, t.Code(), payload + rest);
    if charged + |e.key| <= limits.maxCatalogBytes {
      ValueWritten(e.value, rest, charged + |e.key|, limits);
    }
  }

  lemma {:induction false} EntryRead(bs: seq<byte>, charged: nat, limits: Limits)
    requires TakeEntry(bs, charged, limits).Took?
    ensures
      var p := TakeEntry(bs, charged, limits);
      && GoodEntry(p.value, limits) && bs == EncodeEntry(p.value, limits) + p.rest
      && p.charged == charged + |p.value.key| + ValueCharge(p.value.value, limits) <= limits.maxCatalogBytes
  {
    hide LittleEndian, Pow256, ParseNat, TakeString, TakeValue, EncodeString, EncodeValue, WellFormedValue, ValidKey,
         TypeOfCode, MetadataType.Code, ValueCharge;
    var key := TakeString(bs, charged, limits);
    var code := ParseNat(4, key.rest);
    StringRead(bs, charged, limits);
    NatParsed(4, key.rest);
    CodeIsArray(code.value);
    var t := TypeOfCode(code.value).value;
    ValueRead(t, code.rest, key.charged, limits);
    var p := TakeEntry(bs, charged, limits);
    var payload := EncodeValue(p.value.value, limits);
    Associate(LittleEndian(code.value, 4), payload, p.rest);
    Associate(EncodeString(key.value), LittleEndian(code.value, 4) + payload, p.rest);
  }

  lemma GoodTail(entries: seq<Entry>, seen: set<seq<byte>>, limits: Limits)
    requires GoodEntries(entries, limits) && |entries| > 0
    requires forall i :: 0 <= i < |entries| ==> entries[i].key !in seen
    ensures GoodEntry(entries[0], limits) && GoodEntries(entries[1..], limits) && WellFormedEntries(entries, limits)
    ensures forall i :: 0 <= i < |entries[1..]| ==> entries[1..][i].key !in seen + {entries[0].key}
  {
    hide ValidKey, WellFormedValue;
  }

  lemma GoodJoin(entries: seq<Entry>, seen: set<seq<byte>>, limits: Limits)
    requires |entries| > 0 && GoodEntry(entries[0], limits) && GoodEntries(entries[1..], limits) && entries[0].key !in seen
    requires forall i :: 0 <= i < |entries[1..]| ==> entries[1..][i].key !in seen + {entries[0].key}
    ensures GoodEntries(entries, limits) && WellFormedEntries(entries, limits)
    ensures forall i :: 0 <= i < |entries| ==> entries[i].key !in seen
  {
    hide ValidKey, WellFormedValue;
    assert forall i :: 0 < i < |entries| ==> entries[i] == entries[1..][i - 1];
  }

  lemma {:induction false} EntriesWritten(entries: seq<Entry>, seen: set<seq<byte>>, rest: seq<byte>, charged: nat, limits: Limits)
    requires GoodEntries(entries, limits) && LimitsFit(limits) && charged <= limits.maxCatalogBytes
    requires forall i :: 0 <= i < |entries| ==> entries[i].key !in seen
    ensures WellFormedEntries(entries, limits)
    ensures TakeEntries(|entries|, seen, EncodeEntries(entries, limits) + rest, charged, limits)
            == Within(entries, rest, charged + EntriesCharge(entries, limits), limits)
    decreases |entries|
  {
    hide GoodEntry, GoodEntries, TakeEntry, EncodeEntry, ValueCharge, WellFormedValue;
    if |entries| > 0 {
      GoodTail(entries, seen, limits);
      var e := entries[0];
      var tail := EncodeEntries(entries[1..], limits) + rest;
      Associate(EncodeEntry(e, limits), EncodeEntries(entries[1..], limits), rest);
      EntryWritten(e, tail, charged, limits);
      var c := charged + |e.key| + ValueCharge(e.value, limits);
      if c <= limits.maxCatalogBytes {
        EntriesWritten(entries[1..], seen + {e.key}, rest, c, limits);
        assert entries == [e] + entries[1..];
      }
    } else {
      assert EncodeEntries(entries, limits) + rest == rest;
    }
  }

  lemma {:induction false} EntriesRead(n: nat, seen: set<seq<byte>>, bs: seq<byte>, charged: nat, limits: Limits)
    requires TakeEntries(n, seen, bs, charged, limits).Took? && charged <= limits.maxCatalogBytes
    ensures
      var p := TakeEntries(n, seen, bs, charged, limits);
      && |p.value| == n && GoodEntries(p.value, limits) && WellFormedEntries(p.value, limits)
      && (forall i :: 0 <= i < |p.value| ==> p.value[i].key !in seen)
      && bs == EncodeEntries(p.value, limits) + p.rest
      && p.charged == charged + EntriesCharge(p.value, limits) <= limits.maxCatalogBytes
    decreases n
  {
    hide GoodEntry, GoodEntries, TakeEntry, EncodeEntry, ValueCharge, WellFormedValue;
    var p := TakeEntries(n, seen, bs, charged, limits);
    if n > 0 {
      var first := TakeEntry(bs, charged, limits);
      EntryRead(bs, charged, limits);
      EntriesRead(n - 1, seen + {first.value.key}, first.rest, first.charged, limits);
      assert p.value[1..] == TakeEntries(n - 1, seen + {first.value.key}, first.rest, first.charged, limits).value;
      assert p.value[0] == first.value;
      GoodJoin(p.value, seen, limits);
      Associate(EncodeEntry(p.value[0], limits), EncodeEntries(p.value[1..], limits), p.rest);
    } else {
      assert EncodeEntries(p.value, limits) + p.rest == p.rest;
      NoGoodEntries(limits);
    }
  }

  lemma NoGoodEntries(limits: Limits)
    ensures GoodEntries([], limits)
  {
  }

  // ----- tensors -----

  predicate AllBelow(ns: seq<nat>, max: nat) {
    forall i :: 0 <= i < |ns| ==> ns[i] <= max
  }

  ghost predicate GoodTensor(t: TensorInfo, limits: Limits) {
    && WellFormedTensor(t, limits.maxRank) && |t.name| <= limits.maxStringBytes
    && AllBelow(t.dimensions, U64_MAX) && t.kind <= U32_MAX && t.offset <= U64_MAX
  }

  ghost predicate GoodTensors(ts: seq<TensorInfo>, limits: Limits) {
    && (forall i :: 0 <= i < |ts| ==> GoodTensor(ts[i], limits))
    && (forall i, j :: 0 <= i < j < |ts| ==> ts[i].name != ts[j].name)
  }

  lemma {:induction false} DimensionsWritten(dims: seq<nat>, rest: seq<byte>)
    requires AllBelow(dims, U64_MAX)
    ensures TakeDimensions(|dims|, EncodeDimensions(dims) + rest) == Got(dims, rest)
  {
    hide LittleEndian, Pow256, ParseNat;
    if |dims| > 0 {
      Pow256Values();
      Associate(LittleEndian(dims[0], 8), EncodeDimensions(dims[1..]), rest);
      NatPrinted(8, dims[0], EncodeDimensions(dims[1..]) + rest);
      DimensionsWritten(dims[1..], rest);
      assert dims == [dims[0]] + dims[1..];
    } else {
      assert EncodeDimensions(dims) + rest == rest;
    }
  }

  lemma {:induction false} DimensionsRead(n: nat, bs: seq<byte>)
    requires TakeDimensions(n, bs).Got?
    ensures
      var p := TakeDimensions(n, bs);
      |p.value| == n && AllBelow(p.value, U64_MAX) && bs == EncodeDimensions(p.value) + p.rest
  {
    hide LittleEndian, Pow256, ParseNat;
    var p := TakeDimensions(n, bs);
    if n > 0 {
      Pow256Values();
      var first := ParseNat(8, bs);
      NatParsed(8, bs);
      DimensionsRead(n - 1, first.rest);
      assert p.value[1..] == TakeDimensions(n - 1, first.rest).value;
      Associate(LittleEndian(p.value[0], 8), EncodeDimensions(p.value[1..]), p.rest);
    } else {
      assert EncodeDimensions(p.value) + p.rest == p.rest;
    }
  }

  /** The bytes of a tensor after its name and rank. */
  function ShapeBytes(t: TensorInfo): seq<byte> {
    EncodeDimensions(t.dimensions) + (LittleEndian(t.kind, 4) + LittleEndian(t.offset, 8))
  }

  lemma {:induction false} ShapeWritten(t: TensorInfo, rest: seq<byte>, charged: nat, limits: Limits)
    requires GoodTensor(t, limits)
    ensures TakeShape(t.name, |t.dimensions|, ShapeBytes(t) + rest, charged) == Took(t, rest, charged)
  {
    hide LittleEndian, Pow256, ParseNat, TakeDimensions, EncodeDimensions, Product, AllBelow;
    Pow256Values();
    var kind, offset := LittleEndian(t.kind, 4), LittleEndian(t.offset, 8);
    Associate(EncodeDimensions(t.dimensions), kind + offset, rest);
    Associate(kind, offset, rest);
    DimensionsWritten(t.dimensions, kind + (offset + rest));
    NatPrinted(4, t.kind, offset + rest);
    NatPrinted(8, t.offset, rest);
  }

  lemma {:induction false} ShapeRead(name: seq<byte>, rank: nat, bs: seq<byte>, charged: nat)
    requires TakeShape(name, rank, bs, charged).Took? && 0 < rank
    ensures
      var p := TakeShape(name, rank, bs, charged);
      && p.value.name == name && |p.value.dimensions| == rank && p.charged == charged
      && AllBelow(p.value.dimensions, U64_MAX) && p.value.kind <= U32_MAX && p.value.offset <= U64_MAX
      && WellFormedTensor(p.value, rank) && bs == ShapeBytes(p.value) + p.rest
  {
    hide LittleEndian, Pow256, ParseNat, TakeDimensions, EncodeDimensions, AllBelow, Product;
    Pow256Values();
    var dims := TakeDimensions(rank, bs);
    var kind := ParseNat(4, dims.rest);
    var offset := ParseNat(8, kind.rest);
    DimensionsRead(rank, bs);
    NatParsed(4, dims.rest);
    NatParsed(8, kind.rest);
    SizePositive(kind.value, dims.value);
    Associate(LittleEndian(kind.value, 4), LittleEndian(offset.value, 8), offset.rest);
    Associate(EncodeDimensions(dims.value), LittleEndian(kind.value, 4) + LittleEndian(offset.value, 8), offset.rest);
  }

  lemma SizePositive(kind: nat, dims: seq<nat>)
    requires ByteSize(kind, dims).Some?
    ensures ByteSize(kind, dims).value > 0
  {
    hide Product;
    ProductPositive(dims);
    MulLe(1, Product(dims), ElementSize(kind));
  }

  lemma {:induction false} ProductPositive(dims: seq<nat>)
    requires forall i :: 0 <= i < |dims| ==> dims[i] > 0
    ensures Product(dims) > 0
  {
    if |dims| > 0 {
      ProductPositive(dims[..|dims| - 1]);
      MulLe(1, dims[|dims| - 1], Product(dims[..|dims| - 1]));
    }
  }

  lemma {:induction false} TensorWritten(t: TensorInfo, seen: set<seq<byte>>, rest: seq<byte>, charged: nat, limits: Limits)
    requires GoodTensor(t, limits) && LimitsFit(limits) && charged <= limits.maxCatalogBytes && t.name !in seen
    ensures TakeTensor(seen, EncodeTensor(t) + rest, charged, limits) == Within(t, rest, charged + TensorCharge(t), limits)
  {
    hide LittleEndian, Pow256, ParseNat, TakeString, TakeShape, EncodeString, EncodeDimensions, Product, AllBelow;
    Pow256Values();
    var rank := LittleEndian(|t.dimensions|, 4);
    Associate(EncodeString(t.name), rank + ShapeBytes(t), rest);
    Associate(rank, ShapeBytes(t), rest);
    StringWritten(t.name, rank + (ShapeBytes(t) + rest), charged, limits);
    NatPrinted(4, |t.dimensions|, ShapeBytes(t) + rest);
    ShapeWritten(t, rest, charged + TensorCharge(t), limits);
  }

  lemma {:induction false} TensorRead(seen: set<seq<byte>>, bs: seq<byte>, charged: nat, limits: Limits)
    requires TakeTensor(seen, bs, charged, limits).Took?
    ensures
      var p := TakeTensor(seen, bs, charged, limits);
      && GoodTensor(p.value, limits) && p.value.name !in seen && bs == EncodeTensor(p.value) + p.rest
      && p.charged == charged + TensorCharge(p.value) <= limits.maxCatalogBytes
  {
    hide LittleEndian, Pow256, ParseNat, TakeString, TakeShape, EncodeString, EncodeDimensions, Product, AllBelow;
    var name := TakeString(bs, charged, limits);
    var rank := ParseNat(4, name.rest);
    StringRead(bs, charged, limits);
    NatParsed(4, name.rest);
    ShapeRead(name.value, rank.value, rank.rest, name.charged + 8 * rank.value);
    var p := TakeTensor(seen, bs, charged, limits);
    Associate(LittleEndian(rank.value, 4), ShapeBytes(p.value), p.rest);
    Associate(EncodeString(name.value), LittleEndian(rank.value, 4) + ShapeBytes(p.value), p.rest);
  }

  lemma TensorsTail(ts: seq<TensorInfo>, seen: set<seq<byte>>, limits: Limits)
    requires GoodTensors(ts, limits) && |ts| > 0
    requires forall i :: 0 <= i < |ts| ==> ts[i].name !in seen
    ensures GoodTensor(ts[0], limits) && GoodTensors(ts[1..], limits)
    ensures forall i :: 0 <= i < |ts[1..]| ==> ts[1..][i].name !in seen + {ts[0].name}
  {
    hide WellFormedTensor, AllBelow;
  }

  lemma TensorsJoin(ts: seq<TensorInfo>, seen: set<seq<byte>>, limits: Limits)
    requires |ts| > 0 && GoodTensor(ts[0], limits) && GoodTensors(ts[1..], limits) && ts[0].name !in seen
    requires forall i :: 0 <= i < |ts[1..]| ==> ts[1..][i].name !in seen + {ts[0].name}
    ensures GoodTensors(ts, limits) && forall i :: 0 <= i < |ts| ==> ts[i].name !in seen
  {
    hide WellFormedTensor, AllBelow;
    assert forall i :: 0 < i < |ts| ==> ts[i] == ts[1..][i - 1];
  }

  lemma {:induction false} TensorsWritten(ts: seq<TensorInfo>, seen: set<seq<byte>>, rest: seq<byte>, charged: nat, limits: Limits)
    requires GoodTensors(ts, limits) && LimitsFit(limits) && charged <= limits.maxCatalogBytes
    requires forall i :: 0 <= i < |ts| ==> ts[i].name !in seen
    ensures TakeTensors(|ts|, seen, EncodeTensors(ts) + rest, charged, limits)
            == Within(ts, rest, charged + TensorsCharge(ts), limits)
    decreases |ts|
  {
    hide GoodTensor, GoodTensors, TakeTensor, EncodeTensor, TensorCharge;
    if |ts| > 0 {
      TensorsTail(ts, seen, limits);
      Associate(EncodeTensor(ts[0]), EncodeTensors(ts[1..]), rest);
      TensorWritten(ts[0], seen, EncodeTensors(ts[1..]) + rest, charged, limits);
      if charged + TensorCharge(ts[0]) <= limits.maxCatalogBytes {
        TensorsWritten(ts[1..], seen + {ts[0].name}, rest, charged + TensorCharge(ts[0]), limits);
        assert ts == [ts[0]] + ts[1..];
      }
    } else {
      assert EncodeTensors(ts) + rest == rest;
    }
  }

  lemma {:induction false} TensorsRead(n: nat, seen: set<seq<byte>>, bs: seq<byte>, charged: nat, limits: Limits)
    requires TakeTensors(n, seen, bs, charged, limits).Took? && charged <= limits.maxCatalogBytes
    ensures
      var p := TakeTensors(n, seen, bs, charged, limits);
      && |p.value| == n && GoodTensors(p.value, limits) && (forall i :: 0 <= i < |p.value| ==> p.value[i].name !in seen)
      && bs == EncodeTensors(p.value) + p.rest
      && p.charged == charged + TensorsCharge(p.value) <= limits.maxCatalogBytes
    decreases n
  {
    hide GoodTensor, GoodTensors, TakeTensor, EncodeTensor, TensorCharge;
    var p := TakeTensors(n, seen, bs, charged, limits);
    if n > 0 {
      var first := TakeTensor(seen, bs, charged, limits);
      TensorRead(seen, bs, charged, limits);
      TensorsRead(n - 1, seen + {first.value.name}, first.rest, first.charged, limits);
      assert p.value[1..] == TakeTensors(n - 1, seen + {first.value.name}, first.rest, first.charged, limits).value;
      assert p.value[0] == first.value;
      TensorsJoin(p.value, seen, limits);
      Associate(EncodeTensor(p.value[0]), EncodeTensors(p.value[1..]), p.rest);
    } else {
      assert EncodeTensors(p.value) + p.rest == p.rest;
      NoGoodTensors(limits);
    }
  }

  lemma NoGoodTensors(limits: Limits)
    ensures GoodTensors([], limits)
  {
  }
}
