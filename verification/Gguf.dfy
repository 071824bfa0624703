/** GGUF version 3: metadata values, tensor descriptors, the catalog, and the bytes that
    encode them in a file ("File Structure" in the GGUF specification). */
module Gguf {
  import opened Prelude

  datatype MetadataType =
    | TUint8 | TInt8 | TUint16 | TInt16 | TUint32 | TInt32 | TFloat32 | TBool
    | TString | TArray | TUint64 | TInt64 | TFloat64
  {
    function Code(): (n: nat)
      ensures n <= 12
    {
      match this
      case TUint8 => 0 case TInt8 => 1 case TUint16 => 2 case TInt16 => 3
      case TUint32 => 4 case TInt32 => 5 case TFloat32 => 6 case TBool => 7
      case TString => 8 case TArray => 9 case TUint64 => 10 case TInt64 => 11 case TFloat64 => 12
    }
  }

  /** Rejects every code above that of `float64`. */
  function TypeOfCode(n: nat): (t: Option<MetadataType>)
    ensures t.Some? <==> n <= 12
    ensures t.Some? ==> t.value.Code() == n
  {
    if n > 12 then None
    else Some([TUint8, TInt8, TUint16, TInt16, TUint32, TInt32, TFloat32, TBool,
               TString, TArray, TUint64, TInt64, TFloat64][n])
  }

  /** Floats are kept as their bit patterns, strings as their bytes. */
  datatype MetadataValue =
    | U8(u8: nat) | I8(i8: int) | U16(u16: nat) | I16(i16: int)
    | U32(u32: nat) | I32(i32: int) | F32(f32: nat) | Bool(flag: bool)
    | Str(text: seq<byte>)
    | Arr(elementType: MetadataType, values: seq<MetadataValue>)
    | U64(u64: nat) | I64(i64: int) | F64(f64: nat)
  {
    function Type(): MetadataType {
      match this
      case U8(_) => TUint8 case I8(_) => TInt8 case U16(_) => TUint16 case I16(_) => TInt16
      case U32(_) => TUint32 case I32(_) => TInt32 case F32(_) => TFloat32 case Bool(_) => TBool
      case Str(_) => TString case Arr(_, _) => TArray
      case U64(_) => TUint64 case I64(_) => TInt64 case F64(_) => TFloat64
    }
  }

  datatype TensorInfo = TensorInfo(name: seq<byte>, dimensions: seq<nat>, kind: nat, offset: nat, byteSize: nat)

  datatype Catalog = Catalog(
    alignment: nat, tensorDataOffset: nat,
    metadata: map<seq<byte>, MetadataValue>, tensors: seq<TensorInfo>)

  /** `valueBytes` is the size of one metadata value in memory, which arrays are charged for. */
  datatype Limits = Limits(
    maxMetadata: nat, maxTensors: nat, maxStringBytes: nat, maxArrayElements: nat,
    maxCatalogBytes: nat, maxRank: nat, valueBytes: nat)

  const DEFAULT_LIMITS := Limits(1000000, 1000000, 64 * 1024 * 1024, 16 * 1024 * 1024, 512 * 1024 * 1024, 4, 40)

  // ----- little-endian integers -----

  function Pow256(k: nat): (p: nat)
    ensures p >= 1
  {
    if k == 0 then 1 else 256 * Pow256(k - 1)
  }

  function LittleEndian(n: nat, k: nat): (bs: seq<byte>)
    ensures |bs| == k
  {
    if k == 0 then [] else [n % 256] + LittleEndian(n / 256, k - 1)
  }

  function FromLittleEndian(bs: seq<byte>): (n: nat) {
    if |bs| == 0 then 0 else bs[0] + 256 * FromLittleEndian(bs[1..])
  }

  lemma {:induction false} FromLittleEndianBound(bs: seq<byte>)
    ensures FromLittleEndian(bs) < Pow256(|bs|)
  {
    if |bs| > 0 {
      FromLittleEndianBound(bs[1..]);
    }
  }

  /** Reading integers and writing them undo each other. */
  lemma {:induction false} LittleEndianRoundTrip(n: nat, k: nat)
    requires n < Pow256(k)
    ensures FromLittleEndian(LittleEndian(n, k)) == n
  {
    if k > 0 {
      LittleEndianRoundTrip(n / 256, k - 1);
      assert LittleEndian(n, k)[1..] == LittleEndian(n / 256, k - 1);
    }
  }

  lemma {:induction false} FromLittleEndianRoundTrip(bs: seq<byte>)
    ensures LittleEndian(FromLittleEndian(bs), |bs|) == bs
  {
    if |bs| > 0 {
      FromLittleEndianRoundTrip(bs[1..]);
      assert FromLittleEndian(bs) % 256 == bs[0];
      assert FromLittleEndian(bs) / 256 == FromLittleEndian(bs[1..]);
    }
  }

  /** Byte `i` counts in units of the `i`-th power of 256. */
  lemma {:induction false} LittleEndianDigit(bs: seq<byte>, i: nat)
    requires i < |bs|
    ensures (FromLittleEndian(bs) / Pow256(i)) % 256 == bs[i]
  {
    if i > 0 {
      LittleEndianDigit(bs[1..], i - 1);
      var rest := FromLittleEndian(bs[1..]);
      assert FromLittleEndian(bs) / 256 == rest;
      DivideTwice(FromLittleEndian(bs), 256, Pow256(i - 1));
    }
  }

  lemma {:induction false} DivideTwice(n: nat, a: nat, b: nat)
    requires a > 0 && b > 0
    ensures a * b > 0 && n / (a * b) == (n / a) / b
  {
    MulLe(1, a, b);
    var q := n / a;
    var top := q / b;
    assert q == b * top + q % b && n == a * q + n % a;
    assert n == a * (b * top) + a * (q % b) + n % a;
    assert a * (b * top) == (a * b) * top;
    assert a * (q % b) + n % a < a * b by {
      MulLe(q % b + 1, b, a);
      assert a * (q % b + 1) == a * (q % b) + a;
    }
    QuotientUnique(n, a * b, top, a * (q % b) + n % a);
  }

  lemma Pow256Values()
    ensures Pow256(1) == 0x100 && Pow256(2) == 0x1_0000
    ensures Pow256(4) == 0x1_0000_0000 && Pow256(8) == 0x1_0000_0000_0000_0000
  {
    assert Pow256(3) == 256 * Pow256(2);
    assert Pow256(5) == 256 * Pow256(4);
    assert Pow256(6) == 256 * Pow256(5);
    assert Pow256(7) == 256 * Pow256(6);
  }

  /** Two's complement reading and writing of `k`-byte integers. */
  function ToSigned(n: nat, k: nat): int
    requires n < Pow256(k)
  {
    if 2 * n < Pow256(k) then n else n - Pow256(k)
  }

  function ToUnsigned(i: int, k: nat): (n: nat)
    requires FitsSigned(i, k)
  {
    if i >= 0 then i else i + Pow256(k)
  }

  predicate FitsSigned(i: int, k: nat) {
    var p: int := Pow256(k);
    -p <= 2 * i < p
  }

  // ----- values -----

  /** A non-array value whose payload fits its type. */
  predicate FitsType(v: MetadataValue) {
    match v
    case U8(n) => n < Pow256(1)
    case I8(i) => FitsSigned(i, 1)
    case U16(n) => n < Pow256(2)
    case I16(i) => FitsSigned(i, 2)
    case U32(n) => n < Pow256(4)
    case I32(i) => FitsSigned(i, 4)
    case F32(b) => b < Pow256(4)
    case Bool(_) => true
    case Str(_) => true
    case Arr(_, _) => false
    case U64(n) => n < Pow256(8)
    case I64(i) => FitsSigned(i, 8)
    case F64(b) => b < Pow256(8)
  }

  predicate WellFormedScalar(v: MetadataValue, limits: Limits) {
    FitsType(v) && (v.Str? ==> |v.text| <= limits.maxStringBytes)
  }

  predicate WellFormedElements(elementType: MetadataType, values: seq<MetadataValue>, limits: Limits) {
    forall i :: 0 <= i < |values| ==> values[i].Type() == elementType && WellFormedScalar(values[i], limits)
  }

  predicate WellFormedValue(v: MetadataValue, limits: Limits) {
    if v.Arr? then
      v.elementType != TArray && |v.values| <= limits.maxArrayElements
      && WellFormedElements(v.elementType, v.values, limits)
    else
      WellFormedScalar(v, limits)
  }

  function EncodeString(s: seq<byte>): seq<byte> {
    LittleEndian(|s|, 8) + s
  }

  function EncodeScalar(v: MetadataValue): seq<byte>
    requires FitsType(v)
  {
    match v
    case U8(n) => LittleEndian(n, 1)
    case I8(i) => LittleEndian(ToUnsigned(i, 1), 1)
    case U16(n) => LittleEndian(n, 2)
    case I16(i) => LittleEndian(ToUnsigned(i, 2), 2)
    case U32(n) => LittleEndian(n, 4)
    case I32(i) => LittleEndian(ToUnsigned(i, 4), 4)
    case F32(b) => LittleEndian(b, 4)
    case Bool(b) => LittleEndian(if b then 1 else 0, 1)
    case Str(s) => EncodeString(s)
    case U64(n) => LittleEndian(n, 8)
    case I64(i) => LittleEndian(ToUnsigned(i, 8), 8)
    case F64(b) => LittleEndian(b, 8)
  }

  function EncodeElements(values: seq<MetadataValue>): seq<byte>
    requires forall i :: 0 <= i < |values| ==> FitsType(values[i])
  {
    if |values| == 0 then [] else EncodeScalar(values[0]) + EncodeElements(values[1..])
  }

  /** The payload of a value, after its type code. */
  function EncodeValue(v: MetadataValue, limits: Limits): seq<byte>
    requires WellFormedValue(v, limits)
  {
    if v.Arr? then
      LittleEndian(v.elementType.Code(), 4) + (LittleEndian(|v.values|, 8) + EncodeElements(v.values))
    else
      EncodeScalar(v)
  }

  datatype Entry = Entry(key: seq<byte>, value: MetadataValue)

  function EncodeEntry(e: Entry, limits: Limits): seq<byte>
    requires WellFormedValue(e.value, limits)
  {
    EncodeString(e.key) + (LittleEndian(e.value.Type().Code(), 4) + EncodeValue(e.value, limits))
  }

  ghost predicate WellFormedEntries(entries: seq<Entry>, limits: Limits) {
    forall i :: 0 <= i < |entries| ==> WellFormedValue(entries[i].value, limits)
  }

  function EncodeEntries(entries: seq<Entry>, limits: Limits): seq<byte>
    requires WellFormedEntries(entries, limits)
  {
    if |entries| == 0 then [] else EncodeEntry(entries[0], limits) + EncodeEntries(entries[1..], limits)
  }

  // ----- tensor descriptors -----

  function EncodeDimensions(dims: seq<nat>): seq<byte> {
    if |dims| == 0 then [] else LittleEndian(dims[0], 8) + EncodeDimensions(dims[1..])
  }

  function EncodeTensor(t: TensorInfo): seq<byte> {
    EncodeString(t.name) + (LittleEndian(|t.dimensions|, 4) + (EncodeDimensions(t.dimensions)
    + (LittleEndian(t.kind, 4) + LittleEndian(t.offset, 8))))
  }

  function EncodeTensors(ts: seq<TensorInfo>): seq<byte> {
    if |ts| == 0 then [] else EncodeTensor(ts[0]) + EncodeTensors(ts[1..])
  }

  const MAGIC: seq<byte> := [0x47, 0x47, 0x55, 0x46]

  /** Everything before the tensor data: magic, version 3, counts, metadata, descriptors. */
  function EncodeHeader(entries: seq<Entry>, tensors: seq<TensorInfo>, limits: Limits): seq<byte>
    requires WellFormedEntries(entries, limits)
  {
    MAGIC + (LittleEndian(3, 4) + (LittleEndian(|tensors|, 8) + (LittleEndian(|entries|, 8)
    + (EncodeEntries(entries, limits) + EncodeTensors(tensors)))))
  }

  // ----- what a catalog promises -----

  function ElementSize(kind: nat): nat {
    if kind == 0 then 4 else if kind == 1 || kind == 30 then 2 else 0
  }

  function Product(dims: seq<nat>): nat {
    if |dims| == 0 then 1 else Product(dims[..|dims| - 1]) * dims[|dims| - 1]
  }

  predicate IsLower(b: byte) { 0x61 <= b <= 0x7A }

  predicate IsDigit(b: byte) { 0x30 <= b <= 0x39 }

  /** Dot-separated segments of lower-case letters, digits and underscores, none empty and
      none starting with an underscore. */
  ghost predicate ValidKey(key: seq<byte>) {
    && 0 < |key| <= 65535
    && forall i :: 0 <= i < |key| ==> ValidKeyByte(key, i)
  }

  predicate ValidKeyByte(key: seq<byte>, i: nat)
    requires i < |key|
  {
    var inside := i > 0 && key[i - 1] != 0x2E;
    || IsLower(key[i]) || IsDigit(key[i])
    || (key[i] == 0x5F && inside)
    || (key[i] == 0x2E && inside && i + 1 < |key|)
  }

  ghost predicate WellFormedTensor(t: TensorInfo, maxRank: nat) {
    && 0 < |t.dimensions| <= maxRank
    && (forall i :: 0 <= i < |t.dimensions| ==> t.dimensions[i] > 0)
    && ElementSize(t.kind) > 0
    && t.byteSize == Product(t.dimensions) * ElementSize(t.kind)
    && 0 < t.byteSize <= U64_MAX
  }

  function Begin(c: Catalog, t: TensorInfo): nat { c.tensorDataOffset + t.offset }

  function End(c: Catalog, t: TensorInfo): nat { Begin(c, t) + t.byteSize }

  /** Payloads are aligned, inside the file, and pairwise disjoint; names are unique. */
  ghost predicate PayloadsSafe(c: Catalog, fileSize: nat) {
    && 0 < c.alignment && c.tensorDataOffset % c.alignment == 0
    && (forall i :: 0 <= i < |c.tensors| ==> c.tensors[i].offset % c.alignment == 0)
    && (forall i :: 0 <= i < |c.tensors| ==> End(c, c.tensors[i]) <= fileSize)
    && (forall i, j :: 0 <= i < |c.tensors| && 0 <= j < |c.tensors| && i != j ==>
          c.tensors[i].name != c.tensors[j].name
          && (End(c, c.tensors[i]) <= Begin(c, c.tensors[j]) || End(c, c.tensors[j]) <= Begin(c, c.tensors[i])))
  }

  ghost predicate WellFormedCatalog(c: Catalog, fileSize: nat, limits: Limits) {
    && (forall k :: k in c.metadata ==> ValidKey(k) && |k| <= limits.maxStringBytes && WellFormedValue(c.metadata[k], limits))
    && |c.metadata| <= limits.maxMetadata
    && (forall i :: 0 <= i < |c.tensors| ==> WellFormedTensor(c.tensors[i], limits.maxRank))
    && PayloadsSafe(c, fileSize)
  }
}
