/** The tokenizer specification passed from the C++ library to the Rust runtime: how it is
    printed, how it is parsed, and that the two undo each other. */
module WireFormat {
  import opened Prelude
  import opened Gguf
  import opened Parsing
  import opened SpecMetadata
  import LexOrder
  import Utf8

  /** "RIFTOK", a zero byte, and the version. */
  const HEADER: seq<byte> := [0x52, 0x49, 0x46, 0x54, 0x4F, 0x4B, 0, 1]

  // ----- printing -----

  function PrintText(s: seq<byte>): seq<byte> {
    LittleEndian(|s|, 4) + s
  }

  function PrintScalar(v: MetadataValue): seq<byte>
    requires FitsType(v)
  {
    if v.Str? then PrintText(v.text) else EncodeScalar(v)
  }

  predicate AllFit(values: seq<MetadataValue>) {
    forall i :: 0 <= i < |values| ==> FitsType(values[i])
  }

  function PrintElements(values: seq<MetadataValue>): seq<byte>
    requires AllFit(values)
  {
    if |values| == 0 then [] else PrintScalar(values[0]) + PrintElements(values[1..])
  }

  /** What the C++ types guarantee of a value. */
  predicate Representable(v: MetadataValue) {
    if v.Arr? then AllFit(v.values) else FitsType(v)
  }

  function PrintPayload(v: MetadataValue): seq<byte>
    requires Representable(v)
  {
    if v.Arr? then
      LittleEndian(v.elementType.Code(), 4) + (LittleEndian(|v.values|, 8) + PrintElements(v.values))
    else PrintScalar(v)
  }

  function PrintValue(v: MetadataValue): seq<byte>
    requires Representable(v)
  {
    LittleEndian(v.Type().Code(), 4) + PrintPayload(v)
  }

  function PrintEntry(e: Entry): seq<byte>
    requires Representable(e.value)
  {
    PrintText(e.key) + PrintValue(e.value)
  }

  predicate AllRepresentable(entries: seq<Entry>) {
    forall i :: 0 <= i < |entries| ==> Representable(entries[i].value)
  }

  function PrintEntries(entries: seq<Entry>): seq<byte>
    requires AllRepresentable(entries)
  {
    if |entries| == 0 then [] else PrintEntry(entries[0]) + PrintEntries(entries[1..])
  }

  function PrintSpec(entries: seq<Entry>): seq<byte>
    requires AllRepresentable(entries)
  {
    HEADER + (LittleEndian(|entries|, 4) + PrintEntries(entries))
  }

  // ----- what can be written -----

  predicate WritableScalar(t: MetadataType, v: MetadataValue) {
    !v.Arr? && v.Type() == t && (v.Str? ==> |v.text| <= U32_MAX)
  }

  /** No nested arrays, no element of another type, no text longer than a 32-bit length. */
  predicate WritableValue(v: MetadataValue) {
    if v.Arr? then forall i :: 0 <= i < |v.values| ==> WritableScalar(v.elementType, v.values[i])
    else WritableScalar(v.Type(), v)
  }

  predicate Writable(e: Entry) { |e.key| <= U32_MAX && WritableValue(e.value) }

  /** Writable, with the element type and the length of an array as a catalog bounds them. */
  predicate Transmissible(v: MetadataValue) {
    Representable(v) && WritableValue(v) && (v.Arr? ==> v.elementType != TArray && |v.values| <= U64_MAX)
  }

  predicate AllTransmissible(entries: seq<Entry>) {
    forall i :: 0 <= i < |entries| ==> |entries[i].key| <= U32_MAX && Transmissible(entries[i].value)
  }

  // ----- what can be read -----

  predicate IsUtf8(s: seq<byte>) { Utf8.Strict(s).Some? }

  predicate ReadableText(s: seq<byte>) { |s| <= U32_MAX && IsUtf8(s) }

  predicate ReadableScalar(v: MetadataValue) {
    FitsType(v) && (v.Str? ==> ReadableText(v.text))
  }

  predicate ReadableElements(t: MetadataType, values: seq<MetadataValue>) {
    forall i :: 0 <= i < |values| ==> values[i].Type() == t && ReadableScalar(values[i])
  }

  predicate ReadableValue(v: MetadataValue) {
    if v.Arr? then v.elementType != TArray && |v.values| <= U64_MAX && ReadableElements(v.elementType, v.values)
    else ReadableScalar(v)
  }

  predicate TokenLimit(e: Entry) {
    e.key == Utf8.Encode(TOKENS) && e.value.Arr? ==> |e.value.values| <= I32_MAX
  }

  predicate ReadableEntry(e: Entry) {
    ReadableText(e.key) && ReadableValue(e.value) && TokenLimit(e)
  }

  /** Keys grow strictly, starting after `previous`. */
  predicate Ascending(previous: Option<seq<byte>>, entries: seq<Entry>)
    decreases |entries|
  {
    |entries| > 0 ==>
      (previous.Some? ==> LexOrder.Less(previous.value, entries[0].key))
      && Ascending(Some(entries[0].key), entries[1..])
  }

  predicate AllReadable(entries: seq<Entry>) {
    forall i :: 0 <= i < |entries| ==> ReadableEntry(entries[i])
  }

  predicate ReadableSpec(entries: seq<Entry>) {
    |entries| <= U32_MAX && AllReadable(entries) && Ascending(None, entries)
  }

  lemma ReadableRepresentable(entries: seq<Entry>)
    requires AllReadable(entries)
    ensures AllRepresentable(entries)
  {
    hide FitsType, ReadableText, TokenLimit;
    forall i | 0 <= i < |entries|
      ensures Representable(entries[i].value)
    {
      assert ReadableEntry(entries[i]);
    }
  }

  // ----- parsing -----

  function ParseText(bs: seq<byte>): Parsed<seq<byte>> {
    match ParseNat(4, bs)
    case Fail => Fail
    case Got(n, rest) => if |rest| < n || !IsUtf8(rest[..n]) then Fail else Got(rest[..n], rest[n..])
  }

  function ParseScalar(t: MetadataType, bs: seq<byte>): Parsed<MetadataValue>
    requires t != TArray
  {
    if t == TString then
      match ParseText(bs)
      case Fail => Fail
      case Got(s, rest) => Got(Str(s), rest)
    else if |bs| < Width(t) then Fail
    else
      FromLittleEndianBound(bs[..Width(t)]);
      match ScalarOf(t, FromLittleEndian(bs[..Width(t)]))
      case None => Fail
      case Some(v) => Got(v, bs[Width(t)..])
  }

  function ParseElements(t: MetadataType, n: nat, bs: seq<byte>): Parsed<seq<MetadataValue>>
    requires t != TArray
  {
    if n == 0 then Got([], bs) else
    match ParseScalar(t, bs)
    case Fail => Fail
    case Got(v, rest) =>
      match ParseElements(t, n - 1, rest)
      case Fail => Fail
      case Got(vs, rest') => Got([v] + vs, rest')
  }

  function ParseArray(isTokens: bool, bs: seq<byte>): Parsed<MetadataValue> {
    match ParseNat(4, bs)
    case Fail => Fail
    case Got(code, rest) =>
      if code > 12 || code == 9 then Fail else
      match ParseNat(8, rest)
      case Fail => Fail
      case Got(n, rest') =>
        if isTokens && n > I32_MAX then Fail else
        match ParseElements(TypeOfCode(code).value, n, rest')
        case Fail => Fail
        case Got(vs, rest'') => Got(Arr(TypeOfCode(code).value, vs), rest'')
  }

  /** What follows a type code. */
  function ParsePayload(isTokens: bool, code: nat, bs: seq<byte>): Parsed<MetadataValue> {
    if code > 12 then Fail
    else if code == 9 then ParseArray(isTokens, bs)
    else ParseScalar(TypeOfCode(code).value, bs)
  }

  function ParseValue(isTokens: bool, bs: seq<byte>): Parsed<MetadataValue> {
    match ParseNat(4, bs)
    case Fail => Fail
    case Got(code, rest) => ParsePayload(isTokens, code, rest)
  }

  function ParseEntry(bs: seq<byte>): Parsed<Entry> {
    match ParseText(bs)
    case Fail => Fail
    case Got(key, rest) =>
      match ParseValue(key == Utf8.Encode(TOKENS), rest)
      case Fail => Fail
      case Got(v, rest') => Got(Entry(key, v), rest')
  }

  function ParseEntries(n: nat, previous: Option<seq<byte>>, bs: seq<byte>): Parsed<seq<Entry>> {
    if n == 0 then Got([], bs) else
    match ParseEntry(bs)
    case Fail => Fail
    case Got(e, rest) =>
      if previous.Some? && !LexOrder.Less(previous.value, e.key) then Fail else
      match ParseEntries(n - 1, Some(e.key), rest)
      case Fail => Fail
      case Got(es, rest') => Got([e] + es, rest')
  }

  /** The whole specification; nothing may follow it. */
  function ParseSpec(bs: seq<byte>): Option<seq<Entry>> {
    if !(HEADER <= bs) then None else
    match ParseNat(4, bs[8..])
    case Fail => None
    case Got(n, rest) =>
      match ParseEntries(n, None, rest)
      case Fail => None
      case Got(es, rest') => if rest' == [] then Some(es) else None
  }
}
