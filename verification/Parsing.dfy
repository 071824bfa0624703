/** Fixed-width numbers and scalars at the head of a byte string, as both formats store them. */
module Parsing {
  import opened Prelude
  import opened Gguf

  // ----- numbers -----

  datatype Parsed<+T> = Fail | Got(value: T, rest: seq<byte>)

  function ParseNat(k: nat, bs: seq<byte>): Parsed<nat> {
    if |bs| < k then Fail else Got(FromLittleEndian(bs[..k]), bs[k..])
  }

  lemma {:induction false} NatPrinted(k: nat, n: nat, rest: seq<byte>)
    requires n < Pow256(k)
    ensures ParseNat(k, LittleEndian(n, k) + rest) == Got(n, rest)
  {
    hide LittleEndian, FromLittleEndian, Pow256;
    LittleEndianRoundTrip(n, k);
  }

  lemma {:induction false} NatParsed(k: nat, bs: seq<byte>)
    requires ParseNat(k, bs).Got?
    ensures
      var p := ParseNat(k, bs);
      p.value < Pow256(k) && bs == LittleEndian(p.value, k) + p.rest
  {
    hide LittleEndian, FromLittleEndian, Pow256;
    FromLittleEndianBound(bs[..k]);
    FromLittleEndianRoundTrip(bs[..k]);
  }

  // ----- scalars -----

  /** The bytes a fixed-width type takes; none for strings. */
  function Width(t: MetadataType): nat {
    match t
    case TUint8 => 1 case TInt8 => 1 case TBool => 1 case TUint16 => 2 case TInt16 => 2
    case TUint32 => 4 case TInt32 => 4 case TFloat32 => 4
    case TUint64 => 8 case TInt64 => 8 case TFloat64 => 8 case TString => 0 case TArray => 0
  }

  predicate FixedWidth(t: MetadataType) { t != TString && t != TArray }

  /** The value a fixed-width integer stands for; a bool other than 0 and 1 is malformed. */
  function ScalarOf(t: MetadataType, n: nat): Option<MetadataValue>
    requires FixedWidth(t) && n < Pow256(Width(t))
  {
    match t
    case TUint8 => Some(U8(n)) case TInt8 => Some(I8(ToSigned(n, 1)))
    case TUint16 => Some(U16(n)) case TInt16 => Some(I16(ToSigned(n, 2)))
    case TUint32 => Some(U32(n)) case TInt32 => Some(I32(ToSigned(n, 4))) case TFloat32 => Some(F32(n))
    case TBool => if n > 1 then None else Some(Bool(n == 1))
    case TUint64 => Some(U64(n)) case TInt64 => Some(I64(ToSigned(n, 8))) case TFloat64 => Some(F64(n))
  }

  /** The integer written for a fixed-width value. */
  function CodeOf(v: MetadataValue): (n: nat)
    requires FitsType(v) && !v.Str?
    ensures n < Pow256(Width(v.Type()))
  {
    Pow256Values();
    match v
    case U8(n) => n case I8(i) => ToUnsigned(i, 1) case U16(n) => n case I16(i) => ToUnsigned(i, 2)
    case U32(n) => n case I32(i) => ToUnsigned(i, 4) case F32(n) => n case Bool(b) => if b then 1 else 0
    case U64(n) => n case I64(i) => ToUnsigned(i, 8) case F64(n) => n
  }

  lemma ScalarWritten(v: MetadataValue)
    requires FitsType(v) && !v.Str?
    ensures EncodeScalar(v) == LittleEndian(CodeOf(v), Width(v.Type()))
  {
    hide LittleEndian, Pow256;
  }

  lemma CodeRead(v: MetadataValue)
    requires FitsType(v) && !v.Str?
    ensures FixedWidth(v.Type()) && ScalarOf(v.Type(), CodeOf(v)) == Some(v)
  {
    hide LittleEndian;
    Pow256Values();
  }

  lemma CodeGiven(t: MetadataType, n: nat)
    requires FixedWidth(t) && n < Pow256(Width(t)) && ScalarOf(t, n).Some?
    ensures
      var v := ScalarOf(t, n).value;
      v.Type() == t && FitsType(v) && !v.Str? && CodeOf(v) == n
  {
    hide LittleEndian;
    Pow256Values();
  }

  lemma NotArray(v: MetadataValue)
    requires FitsType(v)
    ensures v.Type() != TArray && (v.Type() == TString <==> v.Str?)
  {
  }

  lemma CodeOfType(t: MetadataType)
    ensures TypeOfCode(t.Code()) == Some(t) && (t.Code() == 9 <==> t == TArray) && t.Code() < Pow256(4)
  {
    Pow256Values();
  }

  lemma CodeIsArray(code: nat)
    requires code <= 12
    ensures TypeOfCode(code).value.Code() == code && (TypeOfCode(code).value == TArray <==> code == 9)
  {
  }
}
