/** Printing a specification and parsing it undo each other, and no specification is the
    start of another. */
module WireRoundTrip {
  import opened Prelude
  import opened Gguf
  import opened Parsing
  import opened WireFormat
  import opened SpecMetadata
  import LexOrder
  import Utf8

  // ----- text -----

  lemma {:induction false} TextPrinted(s: seq<byte>, rest: seq<byte>)
    requires |s| <= U32_MAX
    ensures ParseText(PrintText(s) + rest) == if IsUtf8(s) then Got(s, rest) else Fail
  {
    hide LittleEndian, ParseNat, Pow256, IsUtf8;
    Pow256Values();
    NatPrinted(4, |s|, s + rest);
    Associate(LittleEndian(|s|, 4), s, rest);
    assert (s + rest)[..|s|] == s && (s + rest)[|s|..] == rest;
  }

  lemma {:induction false} TextParsed(bs: seq<byte>)
    requires ParseText(bs).Got?
    ensures
      var p := ParseText(bs);
      ReadableText(p.value) && bs == PrintText(p.value) + p.rest
  {
    hide LittleEndian, ParseNat, Pow256, IsUtf8;
    Pow256Values();
    NatParsed(4, bs);
    var p := ParseText(bs);
    Associate(LittleEndian(|p.value|, 4), p.value, p.rest);
    assert p.value + p.rest == ParseNat(4, bs).rest;
  }

  // ----- scalars -----

  lemma {:induction false} ScalarPrinted(v: MetadataValue, rest: seq<byte>)
    requires FitsType(v) && (v.Str? ==> |v.text| <= U32_MAX)
    ensures v.Type() != TArray
    ensures ParseScalar(v.Type(), PrintScalar(v) + rest) == if ReadableScalar(v) then Got(v, rest) else Fail
  {
    hide LittleEndian, FromLittleEndian, Pow256, FitsType, EncodeScalar, ParseText, PrintText, IsUtf8, ScalarOf;
    NotArray(v);
    if v.Str? {
      TextPrinted(v.text, rest);
    } else {
      var k := Width(v.Type());
      ScalarWritten(v);
      CodeRead(v);
      NatPrinted(k, CodeOf(v), rest);
    }
  }

  lemma {:induction false} ScalarParsed(t: MetadataType, bs: seq<byte>)
    requires t != TArray && ParseScalar(t, bs).Got?
    ensures
      var p := ParseScalar(t, bs);
      p.value.Type() == t && ReadableScalar(p.value) && bs == PrintScalar(p.value) + p.rest
  {
    hide LittleEndian, FromLittleEndian, Pow256, FitsType, EncodeScalar, ParseText, PrintText, ReadableText, ScalarOf;
    if t == TString {
      TextParsed(bs);
      StringFits(ParseText(bs).value);
    } else {
      NatParsed(Width(t), bs);
      CodeGiven(t, FromLittleEndian(bs[..Width(t)]));
      ScalarWritten(ParseScalar(t, bs).value);
    }
  }

  lemma StringFits(s: seq<byte>)
    ensures FitsType(Str(s))
  {
  }

  // ----- values -----

  lemma {:induction false} ElementsPrinted(t: MetadataType, values: seq<MetadataValue>, rest: seq<byte>)
    requires t != TArray && AllFit(values) && forall i :: 0 <= i < |values| ==> WritableScalar(t, values[i])
    ensures ParseElements(t, |values|, PrintElements(values) + rest)
            == if ReadableElements(t, values) then Got(values, rest) else Fail
  {
    hide ReadableScalar, ParseScalar, FitsType, PrintScalar;
    if |values| > 0 {
      Associate(PrintScalar(values[0]), PrintElements(values[1..]), rest);
      ScalarPrinted(values[0], PrintElements(values[1..]) + rest);
      ElementsPrinted(t, values[1..], rest);
      assert values == [values[0]] + values[1..];
      assert ReadableElements(t, values) <==> ReadableScalar(values[0]) && ReadableElements(t, values[1..]);
    } else {
      assert PrintElements(values) + rest == rest;
    }
  }

  lemma ReadableFit(t: MetadataType, values: seq<MetadataValue>)
    requires ReadableElements(t, values)
    ensures AllFit(values)
  {
    hide FitsType, ReadableText;
  }

  lemma {:induction false} ElementsParsed(t: MetadataType, n: nat, bs: seq<byte>)
    requires t != TArray && ParseElements(t, n, bs).Got?
    ensures
      var p := ParseElements(t, n, bs);
      |p.value| == n && ReadableElements(t, p.value) && AllFit(p.value) && bs == PrintElements(p.value) + p.rest
  {
    hide ReadableScalar, ParseScalar, FitsType, PrintScalar;
    var p := ParseElements(t, n, bs);
    if n > 0 {
      var first := ParseScalar(t, bs);
      ScalarParsed(t, bs);
      ElementsParsed(t, n - 1, first.rest);
      assert p.value[1..] == ParseElements(t, n - 1, first.rest).value;
      ReadableFit(t, p.value);
      assert FitsType(p.value[0]) && p.value[0] == first.value;
      Associate(PrintScalar(first.value), PrintElements(p.value[1..]), p.rest);
    } else {
      assert PrintElements(p.value) + p.rest == p.rest;
    }
  }

  lemma {:induction false} ArrayPrinted(v: MetadataValue, isTokens: bool, rest: seq<byte>)
    requires v.Arr? && Transmissible(v)
    ensures ParseArray(isTokens, PrintPayload(v) + rest)
            == if ReadableValue(v) && (isTokens ==> |v.values| <= I32_MAX) then Got(v, rest) else Fail
  {
    hide WritableScalar, LittleEndian, Pow256, ParseNat, ParseElements, PrintElements, ReadableElements, AllFit, TypeOfCode, MetadataType.Code;
    var n, t := |v.values|, v.elementType;
    CodeOfType(t);
    Pow256Values();
    ElementsPrinted(t, v.values, rest);
    var size, elements := LittleEndian(n, 8), PrintElements(v.values);
    Associate(LittleEndian(t.Code(), 4), size + elements, rest);
    Associate(size, elements, rest);
    NatPrinted(4, t.Code(), size + (elements + rest));
    NatPrinted(8, n, elements + rest);
  }

  lemma {:induction false} ArrayParsed(isTokens: bool, bs: seq<byte>)
    requires ParseArray(isTokens, bs).Got?
    ensures
      var p := ParseArray(isTokens, bs);
      && p.value.Arr? && ReadableValue(p.value) && (isTokens ==> |p.value.values| <= I32_MAX)
      && Representable(p.value) && bs == PrintPayload(p.value) + p.rest
  {
    hide LittleEndian, Pow256, ParseNat, ParseElements, PrintElements, ReadableElements, AllFit, TypeOfCode, MetadataType.Code;
    var code := ParseNat(4, bs);
    var size := ParseNat(8, code.rest);
    NatParsed(4, bs);
    NatParsed(8, code.rest);
    CodeIsArray(code.value);
    Pow256Values();
    var t := TypeOfCode(code.value).value;
    ElementsParsed(t, size.value, size.rest);
    var p := ParseArray(isTokens, bs);
    var elements := PrintElements(p.value.values);
    Associate(LittleEndian(size.value, 8), elements, p.rest);
    Associate(LittleEndian(code.value, 4), LittleEndian(size.value, 8) + elements, p.rest);
  }

  lemma {:induction false} ValuePrinted(v: MetadataValue, isTokens: bool, rest: seq<byte>)
    requires Transmissible(v)
    ensures ParseValue(isTokens, PrintValue(v) + rest)
            == if ReadableValue(v) && (isTokens && v.Arr? ==> |v.values| <= I32_MAX) then Got(v, rest) else Fail
  {
    hide LittleEndian, Pow256, ParseNat, ParseArray, ParseScalar, PrintPayload, FitsType, IsUtf8, ReadableElements,
         AllFit, TypeOfCode, MetadataType.Code;
    CodeOfType(v.Type());
    if v.Arr? {
      ArrayPrinted(v, isTokens, rest);
    } else {
      PayloadOfScalar(v);
      ScalarPrinted(v, rest);
    }
    Associate(LittleEndian(v.Type().Code(), 4), PrintPayload(v), rest);
    NatPrinted(4, v.Type().Code(), PrintPayload(v) + rest);
  }

  lemma PayloadOfScalar(v: MetadataValue)
    requires FitsType(v)
    ensures !v.Arr? && Representable(v) && PrintPayload(v) == PrintScalar(v) && v.Type() != TArray
  {
    hide PrintScalar;
  }

  lemma {:induction false} ValueParsed(isTokens: bool, bs: seq<byte>)
    requires ParseValue(isTokens, bs).Got?
    ensures
      var p := ParseValue(isTokens, bs);
      && ReadableValue(p.value) && (isTokens && p.value.Arr? ==> |p.value.values| <= I32_MAX)
      && Representable(p.value) && bs == PrintValue(p.value) + p.rest
  {
    hide LittleEndian, Pow256, ParseNat, ParseArray, ParseScalar, PrintPayload, FitsType, IsUtf8, ReadableElements,
         AllFit, TypeOfCode, MetadataType.Code;
    var code := ParseNat(4, bs);
    NatParsed(4, bs);
    CodeIsArray(code.value);
    var p := ParseValue(isTokens, bs);
    if code.value == 9 {
      ArrayParsed(isTokens, code.rest);
    } else {
      ScalarParsed(TypeOfCode(code.value).value, code.rest);
      PayloadOfScalar(p.value);
    }
    Associate(LittleEndian(p.value.Type().Code(), 4), PrintPayload(p.value), p.rest);
  }

  // ----- entries -----

  lemma {:induction false} EntryPrinted(e: Entry, rest: seq<byte>)
    requires |e.key| <= U32_MAX && Transmissible(e.value)
    ensures ParseEntry(PrintEntry(e) + rest) == if ReadableEntry(e) then Got(e, rest) else Fail
  {
    hide ParseText, ParseValue, PrintText, PrintValue, IsUtf8, ReadableValue, Representable, Utf8.Encode, WritableValue;
    ValuePrinted(e.value, e.key == Utf8.Encode(TOKENS), rest);
    Associate(PrintText(e.key), PrintValue(e.value), rest);
    TextPrinted(e.key, PrintValue(e.value) + rest);
  }

  lemma {:induction false} EntryParsed(bs: seq<byte>)
    requires ParseEntry(bs).Got?
    ensures
      var p := ParseEntry(bs);
      ReadableEntry(p.value) && Representable(p.value.value) && bs == PrintEntry(p.value) + p.rest
  {
    hide ParseText, ParseValue, PrintText, PrintValue, ReadableText, ReadableValue, Representable, Utf8.Encode;
    var p := ParseEntry(bs);
    TextParsed(bs);
    ValueParsed(p.value.key == Utf8.Encode(TOKENS), ParseText(bs).rest);
    Associate(PrintText(p.value.key), PrintValue(p.value.value), p.rest);
  }

  /** What is printed parses back, unless some entry cannot be read. */
  lemma {:induction false} EntriesPrinted(previous: Option<seq<byte>>, entries: seq<Entry>, rest: seq<byte>)
    requires AllTransmissible(entries) && AllRepresentable(entries) && Ascending(previous, entries)
    ensures ParseEntries(|entries|, previous, PrintEntries(entries) + rest)
            == if AllReadable(entries) then Got(entries, rest) else Fail
    decreases |entries|
  {
    hide ReadableEntry, ParseEntry, PrintEntry, Representable, LexOrder.Less, Transmissible;
    if |entries| > 0 {
      Associate(PrintEntry(entries[0]), PrintEntries(entries[1..]), rest);
      EntryPrinted(entries[0], PrintEntries(entries[1..]) + rest);
      EntriesPrinted(Some(entries[0].key), entries[1..], rest);
      assert entries == [entries[0]] + entries[1..];
      assert AllReadable(entries) <==> ReadableEntry(entries[0]) && AllReadable(entries[1..]);
    } else {
      assert PrintEntries(entries) + rest == rest;
    }
  }

  lemma ReadableTransmissible(entries: seq<Entry>)
    requires AllReadable(entries)
    ensures AllTransmissible(entries) && AllRepresentable(entries)
  {
    hide FitsType, IsUtf8, TokenLimit;
    forall i | 0 <= i < |entries|
      ensures |entries[i].key| <= U32_MAX && Transmissible(entries[i].value)
    {
      assert ReadableEntry(entries[i]);
      ReadableWritable(entries[i].value);
    }
  }

  lemma ReadableWritable(v: MetadataValue)
    requires ReadableValue(v)
    ensures Transmissible(v)
  {
    hide IsUtf8;
  }

  lemma {:induction false} EntriesParsed(n: nat, previous: Option<seq<byte>>, bs: seq<byte>)
    requires ParseEntries(n, previous, bs).Got?
    ensures
      var p := ParseEntries(n, previous, bs);
      && |p.value| == n && AllReadable(p.value) && Ascending(previous, p.value)
      && AllRepresentable(p.value) && bs == PrintEntries(p.value) + p.rest
    decreases n
  {
    hide ReadableEntry, ParseEntry, PrintEntry, Representable, LexOrder.Less;
    var p := ParseEntries(n, previous, bs);
    if n > 0 {
      var first := ParseEntry(bs);
      EntryParsed(bs);
      EntriesParsed(n - 1, Some(first.value.key), first.rest);
      assert p.value[1..] == ParseEntries(n - 1, Some(first.value.key), first.rest).value;
      ReadableRepresentable(p.value);
      Associate(PrintEntry(first.value), PrintEntries(p.value[1..]), p.rest);
    } else {
      assert PrintEntries(p.value) + p.rest == p.rest;
    }
  }

  // ----- specifications -----

  /** The parser accepts a byte string exactly when it prints a readable specification, and
      then answers that specification. */
  lemma {:induction false} SpecRoundTrip(bs: seq<byte>, entries: seq<Entry>)
    ensures ParseSpec(bs) == Some(entries) <==>
            ReadableSpec(entries) && AllRepresentable(entries) && bs == PrintSpec(entries)
  {
    hide LittleEndian, Pow256, ParseNat, ParseEntries, PrintEntries, AllReadable, Ascending, AllRepresentable;
    Pow256Values();
    if ParseSpec(bs) == Some(entries) {
      var count := ParseNat(4, bs[8..]);
      NatParsed(4, bs[8..]);
      EntriesParsed(count.value, None, count.rest);
      assert PrintEntries(entries) + [] == PrintEntries(entries);
      assert bs == HEADER + bs[8..];
    }
    if ReadableSpec(entries) && AllRepresentable(entries) && bs == PrintSpec(entries) {
      ReadableTransmissible(entries);
      EntriesPrinted(None, entries, []);
      NatPrinted(4, |entries|, PrintEntries(entries));
      assert PrintEntries(entries) + [] == PrintEntries(entries);
      assert bs[8..] == LittleEndian(|entries|, 4) + PrintEntries(entries);
    }
  }

  /** Of two accepted byte strings neither is a proper start of the other. */
  lemma {:induction false} PrefixFree(a: seq<byte>, b: seq<byte>)
    requires ParseSpec(a).Some? && ParseSpec(b).Some? && a <= b
    ensures a == b
  {
    hide LittleEndian, Pow256, ParseNat, ParseEntries, PrintEntries, AllReadable, Ascending, AllRepresentable;
    Pow256Values();
    var es := ParseSpec(a).value;
    SpecRoundTrip(a, es);
    var tail := b[|a|..];
    ReadableTransmissible(es);
    EntriesPrinted(None, es, tail);
    Associate(LittleEndian(|es|, 4), PrintEntries(es), tail);
    NatPrinted(4, |es|, PrintEntries(es) + tail);
    assert b[8..] == a[8..] + tail && a[8..] == LittleEndian(|es|, 4) + PrintEntries(es);
    assert a + tail == b;
  }
}
