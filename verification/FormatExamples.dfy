/** A model file and a tokenizer specification spelled out byte by byte. */
module FormatExamples {
  import opened Prelude
  import opened Gguf
  import opened GgufParse
  import opened GgufRoundTrip
  import opened GgufCatalog
  import opened GgufFile
  import WireFormat

  lemma LowByte(n: nat, k: nat)
    requires n < 256 && k > 0
    ensures LittleEndian(n, k) == [n] + LittleEndian(0, k - 1)
  {
  }

  lemma SmallNumber(n: nat)
    requires n < 256
    ensures LittleEndian(n, 4) == [n, 0, 0, 0]
    ensures LittleEndian(n, 8) == [n, 0, 0, 0, 0, 0, 0, 0]
  {
    hide LittleEndian;
    Zeros();
    LowByte(n, 4);
    LowByte(n, 8);
  }

  lemma Zeros()
    ensures LittleEndian(0, 3) == [0, 0, 0]
    ensures LittleEndian(0, 7) == [0, 0, 0, 0, 0, 0, 0]
  {
    assert LittleEndian(0, 5) == [0, 0] + LittleEndian(0, 3);
    assert LittleEndian(0, 7) == [0, 0] + LittleEndian(0, 5);
  }

  // ----- a model file: two metadata entries and one half-precision tensor of shape 2 by 3 -----

  /** The key "a" holds the 32-bit number minus two. */
  const SIGNED: Entry := Entry([0x61], I32(-2))

  const ONE_TEXT: seq<MetadataValue> := [Str([0x78])]

  /** The key "b" holds a list of one text, "x". */
  const TEXTS: Entry := Entry([0x62], Arr(TString, ONE_TEXT))

  const TENSOR: TensorInfo := TensorInfo([0x74], [2, 3], 1, 0, 12)

  /** "GGUF", version 3, one tensor, two entries. */
  const START: seq<byte> := [
    0x47, 0x47, 0x55, 0x46, 3, 0, 0, 0,
    1, 0, 0, 0, 0, 0, 0, 0,
    2, 0, 0, 0, 0, 0, 0, 0]

  const SIGNED_BYTES: seq<byte> := [
    1, 0, 0, 0, 0, 0, 0, 0, 0x61,
    5, 0, 0, 0, 0xFE, 0xFF, 0xFF, 0xFF]

  const TEXTS_BYTES: seq<byte> := [
    1, 0, 0, 0, 0, 0, 0, 0, 0x62,
    9, 0, 0, 0, 8, 0, 0, 0,
    1, 0, 0, 0, 0, 0, 0, 0,
    1, 0, 0, 0, 0, 0, 0, 0, 0x78]

  const TENSOR_BYTES: seq<byte> := [
    1, 0, 0, 0, 0, 0, 0, 0, 0x74,
    2, 0, 0, 0,
    2, 0, 0, 0, 0, 0, 0, 0,
    3, 0, 0, 0, 0, 0, 0, 0,
    1, 0, 0, 0,
    0, 0, 0, 0, 0, 0, 0, 0]

  /** After the header, which ends at 116, the tensor data begins at 128. */
  const PADDING: seq<byte> := [0, 0, 0, 0, 0, 0, 0, 0, 0, 0, 0, 0]

  const PAYLOAD: seq<byte> := [1, 2, 3, 4, 5, 6, 7, 8, 9, 10, 11, 12]

  const FILE: seq<byte> := START + SIGNED_BYTES + TEXTS_BYTES + TENSOR_BYTES + PADDING + PAYLOAD

  const CATALOG: Catalog := Catalog(32, 128, map[[0x61] := I32(-2), [0x62] := Arr(TString, ONE_TEXT)], [TENSOR])

  lemma MinusTwo()
    ensures FitsSigned(-2, 4) && LittleEndian(ToUnsigned(-2, 4), 4) == [0xFE, 0xFF, 0xFF, 0xFF]
  {
    Pow256Values();
    var n := 0xFFFF_FFFE;
    assert LittleEndian(0xFF, 1) == [0xFF];
    assert LittleEndian(0xFFFF, 2) == [0xFF] + LittleEndian(0xFF, 1);
    assert LittleEndian(0xFF_FFFF, 3) == [0xFF] + LittleEndian(0xFFFF, 2);
    assert LittleEndian(n, 4) == [0xFE] + LittleEndian(0xFF_FFFF, 3);
  }

  lemma SignedEncoded()
    ensures WellFormedValue(SIGNED.value, DEFAULT_LIMITS)
    ensures EncodeEntry(SIGNED, DEFAULT_LIMITS) == SIGNED_BYTES
  {
    hide LittleEndian, Pow256, FitsSigned, ToUnsigned;
    MinusTwo();
    SmallNumber(1);
    SmallNumber(5);
  }

  lemma OneTextEncoded()
    ensures EncodeElements(ONE_TEXT) == [1, 0, 0, 0, 0, 0, 0, 0, 0x78]
    ensures WireFormat.PrintElements(ONE_TEXT) == [1, 0, 0, 0, 0x78]
  {
    hide LittleEndian;
    SmallNumber(1);
    assert ONE_TEXT[1..] == [];
  }

  lemma TextsWellFormed()
    ensures WellFormedValue(TEXTS.value, DEFAULT_LIMITS)
  {
  }

  lemma TextsValueEncoded()
    requires WellFormedValue(TEXTS.value, DEFAULT_LIMITS)
    ensures EncodeValue(TEXTS.value, DEFAULT_LIMITS)
            == [8, 0, 0, 0] + ([1, 0, 0, 0, 0, 0, 0, 0] + [1, 0, 0, 0, 0, 0, 0, 0, 0x78])
  {
    hide LittleEndian, EncodeElements, WellFormedValue;
    OneTextEncoded();
    SmallNumber(1);
    SmallNumber(8);
  }

  lemma TextsEncoded()
    ensures WellFormedValue(TEXTS.value, DEFAULT_LIMITS)
    ensures EncodeEntry(TEXTS, DEFAULT_LIMITS) == TEXTS_BYTES
  {
    hide LittleEndian, EncodeValue, WellFormedValue;
    TextsWellFormed();
    TextsValueEncoded();
    SmallNumber(1);
    SmallNumber(9);
    assert EncodeString([0x62]) == [1, 0, 0, 0, 0, 0, 0, 0, 0x62];
  }

  lemma ShapeEncoded()
    ensures EncodeDimensions([2, 3]) == [2, 0, 0, 0, 0, 0, 0, 0, 3, 0, 0, 0, 0, 0, 0, 0]
  {
    hide LittleEndian;
    SmallNumber(2);
    SmallNumber(3);
    assert [2, 3][1..] == [3] && [3][1..] == [];
    assert EncodeDimensions([3]) == [3, 0, 0, 0, 0, 0, 0, 0];
    assert EncodeDimensions([2, 3]) == [2, 0, 0, 0, 0, 0, 0, 0] + [3, 0, 0, 0, 0, 0, 0, 0];
  }

  lemma TensorEncoded()
    ensures EncodeTensor(TENSOR) == TENSOR_BYTES
  {
    hide LittleEndian, EncodeDimensions;
    SmallNumber(0);
    SmallNumber(1);
    SmallNumber(2);
    ShapeEncoded();
    assert EncodeString([0x74]) == [1, 0, 0, 0, 0, 0, 0, 0, 0x74];
  }

  lemma HeaderEncoded()
    ensures WellFormedEntries([SIGNED, TEXTS], DEFAULT_LIMITS)
    ensures EncodeHeader([SIGNED, TEXTS], [TENSOR], DEFAULT_LIMITS) == START + SIGNED_BYTES + TEXTS_BYTES + TENSOR_BYTES
  {
    hide LittleEndian, EncodeEntry, EncodeTensor, WellFormedValue, SIGNED_BYTES, TEXTS_BYTES, TENSOR_BYTES;
    SignedEncoded();
    TextsEncoded();
    TensorEncoded();
    SmallNumber(1);
    SmallNumber(2);
    SmallNumber(3);
    assert [SIGNED, TEXTS][1..] == [TEXTS] && [TEXTS][1..] == [] && [TENSOR][1..] == [];
    assert EncodeEntries([TEXTS], DEFAULT_LIMITS) == TEXTS_BYTES;
    assert EncodeEntries([SIGNED, TEXTS], DEFAULT_LIMITS) == SIGNED_BYTES + TEXTS_BYTES;
    assert EncodeTensors([TENSOR]) == TENSOR_BYTES;
    assert START == MAGIC + ([3, 0, 0, 0] + ([1, 0, 0, 0, 0, 0, 0, 0] + [2, 0, 0, 0, 0, 0, 0, 0]));
  }

  lemma KeysValid()
    ensures ValidKey([0x61]) && ValidKey([0x62])
    ensures CatalogAlignment(CATALOG.metadata) == Ok(32)
    ensures GoodEntries([SIGNED, TEXTS], DEFAULT_LIMITS)
  {
    hide Pow256, FitsSigned;
    MinusTwo();
  }

  lemma TensorGood()
    ensures GoodTensors([TENSOR], DEFAULT_LIMITS) && PayloadsSafe(CATALOG, 140)
  {
    assert [2, 3][..1] == [2] && [2][..0] == [];
    assert Product([2]) == 2;
    assert Product([2, 3]) == 6;
  }

  /** What reading it is charged: keys, payloads, forty bytes for the element of the list; name and dimensions. */
  lemma Charges()
    ensures EntriesCharge([SIGNED, TEXTS], DEFAULT_LIMITS) == (1 + 4) + (1 + 40 + 1)
    ensures TensorsCharge([TENSOR]) == 1 + 2 * 8
  {
    assert [SIGNED, TEXTS][1..] == [TEXTS] && [TEXTS][1..] == [] && [TENSOR][1..] == [];
    assert ONE_TEXT[1..] == [];
    assert EntriesCharge([TEXTS], DEFAULT_LIMITS) == 42;
  }

  lemma Aligned()
    ensures AlignUp(116, 32) == Some(128)
  {
  }

  /** These bytes are a file, and this is its catalog. */
  lemma FileExample()
    ensures |FILE| == 140 && IsFileOf(FILE, DEFAULT_LIMITS, [SIGNED, TEXTS], CATALOG)
    ensures FILE[128..] == PAYLOAD
  {
    hide EncodeHeader, GoodEntries, GoodTensors, PayloadsSafe, EntriesCharge, TensorsCharge, AlignUp, CatalogAlignment,
         SIGNED_BYTES, TEXTS_BYTES, TENSOR_BYTES, PAYLOAD, PADDING;
    HeaderEncoded();
    KeysValid();
    TensorGood();
    Charges();
    Aligned();
    Lengths();
    assert [SIGNED, TEXTS][..1] == [SIGNED] && [SIGNED][..0] == [];
    assert MapOf([SIGNED]) == map[[0x61] := I32(-2)];
    assert MapOf([SIGNED, TEXTS]) == CATALOG.metadata;
    assert FILE == EncodeHeader([SIGNED, TEXTS], [TENSOR], DEFAULT_LIMITS) + (PADDING + PAYLOAD);
  }

  lemma Lengths()
    ensures |START| == 24 && |SIGNED_BYTES| == 17 && |TEXTS_BYTES| == 34 && |TENSOR_BYTES| == 41
    ensures |PADDING| == 12 && |PAYLOAD| == 12
  {
  }

  // ----- a tokenizer specification -----

  const NUMBER: Entry := Entry([0x61], U32(7))

  const SPEC_START: seq<byte> := [0x52, 0x49, 0x46, 0x54, 0x4F, 0x4B, 0, 1, 2, 0, 0, 0]

  const NUMBER_WIRE: seq<byte> := [1, 0, 0, 0, 0x61, 4, 0, 0, 0, 7, 0, 0, 0]

  const TEXTS_WIRE: seq<byte> := [
    1, 0, 0, 0, 0x62, 9, 0, 0, 0, 8, 0, 0, 0,
    1, 0, 0, 0, 0, 0, 0, 0,
    1, 0, 0, 0, 0x78]

  lemma NumberPrinted()
    ensures WireFormat.Representable(NUMBER.value) && WireFormat.PrintEntry(NUMBER) == NUMBER_WIRE
  {
    hide LittleEndian, Pow256;
    Pow256Values();
    SmallNumber(1);
    SmallNumber(4);
    SmallNumber(7);
  }

  lemma TextsPayload()
    ensures WireFormat.Representable(TEXTS.value)
    ensures WireFormat.PrintPayload(TEXTS.value)
            == [8, 0, 0, 0] + ([1, 0, 0, 0, 0, 0, 0, 0] + [1, 0, 0, 0, 0x78])
  {
    hide LittleEndian, WireFormat.PrintElements;
    OneTextEncoded();
    SmallNumber(1);
    SmallNumber(8);
  }

  lemma TextsPrinted()
    ensures WireFormat.Representable(TEXTS.value) && WireFormat.PrintEntry(TEXTS) == TEXTS_WIRE
  {
    hide LittleEndian, WireFormat.PrintPayload, WireFormat.Representable;
    TextsPayload();
    SmallNumber(1);
    SmallNumber(9);
    assert WireFormat.PrintText([0x62]) == [1, 0, 0, 0, 0x62];
  }

  /** And these bytes are what a specification of a number and a list of one text is written as. */
  lemma SpecExample()
    ensures WireFormat.AllRepresentable([NUMBER, TEXTS])
    ensures WireFormat.PrintSpec([NUMBER, TEXTS]) == SPEC_START + NUMBER_WIRE + TEXTS_WIRE
  {
    hide LittleEndian, WireFormat.PrintEntry, WireFormat.Representable, NUMBER_WIRE, TEXTS_WIRE;
    NumberPrinted();
    TextsPrinted();
    SmallNumber(2);
    assert [NUMBER, TEXTS][1..] == [TEXTS] && [TEXTS][1..] == [];
    assert WireFormat.PrintEntries([TEXTS]) == TEXTS_WIRE;
    assert WireFormat.PrintEntries([NUMBER, TEXTS]) == NUMBER_WIRE + TEXTS_WIRE;
    assert SPEC_START == WireFormat.HEADER + [2, 0, 0, 0];
  }
}
