/** The Rust side: reading a tokenizer specification byte by byte, with bounds on every count
    taken from the bytes that remain. */
module SpecReader {
  import opened Prelude
  import opened Gguf
  import opened Parsing
  import opened WireFormat
  import opened SpecMetadata
  import LexOrder
  import Utf8

  predicate UsedStringArray(key: string) { key == TOKENS || key == MERGES }

  // ----- what is kept of a value -----

  function Decoded(s: seq<byte>): string {
    if Utf8.Strict(s).Some? then Utf8.Strict(s).value else ""
  }

  function Strings(values: seq<MetadataValue>): (r: seq<string>)
    ensures |r| == |values|
  {
    seq(|values|, i requires 0 <= i < |values| => if values[i].Str? then Decoded(values[i].text) else "")
  }

  function Ints(values: seq<MetadataValue>): (r: seq<int>)
    ensures |r| == |values|
  {
    seq(|values|, i requires 0 <= i < |values| => if values[i].I32? then values[i].i32 else 0)
  }

  /** What the runtime keeps of a value under a key; all it has no use for is dropped. */
  function Kept(key: string, v: MetadataValue): SpecValue {
    match v
    case U32(n) => VU32(n)
    case Bool(b) => VBool(b)
    case Str(s) => VString(Decoded(s))
    case Arr(t, values) =>
      if t == TString && UsedStringArray(key) then VStringArray(Strings(values))
      else if t == TInt32 && key == TOKEN_TYPE then VI32Array(Ints(values))
      else Ignored
    case U8(_) => Ignored case I8(_) => Ignored case U16(_) => Ignored case I16(_) => Ignored
    case I32(_) => Ignored case F32(_) => Ignored
    case U64(_) => Ignored case I64(_) => Ignored case F64(_) => Ignored
  }

  function MetadataOf(entries: seq<Entry>): Metadata {
    if |entries| == 0 then map[]
    else
      var e := entries[|entries| - 1];
      MetadataOf(entries[..|entries| - 1])[Decoded(e.key) := Kept(Decoded(e.key), e.value)]
  }

  // ----- bounds never reject what could be read -----

  /** The least number of bytes an element takes. */
  function MinSize(t: MetadataType): (n: nat)
    requires t != TArray
  {
    if t == TString then 4 else Width(t)
  }

  lemma {:induction false} ElementsNeed(t: MetadataType, n: nat, bs: seq<byte>)
    requires t != TArray && ParseElements(t, n, bs).Got?
    ensures n * MinSize(t) <= |bs|
  {
    hide FromLittleEndian, ScalarOf, IsUtf8;
    if n > 0 {
      ElementsNeed(t, n - 1, ParseScalar(t, bs).rest);
      assert n * MinSize(t) == (n - 1) * MinSize(t) + MinSize(t);
    }
  }

  lemma {:induction false} EntriesNeed(n: nat, previous: Option<seq<byte>>, bs: seq<byte>)
    requires ParseEntries(n, previous, bs).Got?
    ensures 8 * n <= |bs|
    decreases n
  {
    hide LexOrder.Less, ParseEntry;
    if n > 0 {
      var first := ParseEntry(bs);
      EntryNeeds(bs);
      EntriesNeed(n - 1, Some(first.value.key), first.rest);
    }
  }

  lemma {:induction false} EntryNeeds(bs: seq<byte>)
    requires ParseEntry(bs).Got?
    ensures |ParseEntry(bs).rest| + 8 <= |bs|
  {
    hide FromLittleEndian, IsUtf8, ParsePayload, Utf8.Encode;
    var text := ParseText(bs);
    PayloadShrinks(text.value == Utf8.Encode(TOKENS), ParseNat(4, text.rest).value, ParseNat(4, text.rest).rest);
  }

  lemma {:induction false} PayloadShrinks(isTokens: bool, code: nat, bs: seq<byte>)
    requires ParsePayload(isTokens, code, bs).Got?
    ensures |ParsePayload(isTokens, code, bs).rest| <= |bs|
  {
    hide FromLittleEndian, IsUtf8, ScalarOf, ParseElements;
    if code == 9 {
      var n := ParseNat(8, ParseNat(4, bs).rest);
      ElementsShrink(TypeOfCode(ParseNat(4, bs).value).value, n.value, n.rest);
    }
  }

  lemma {:induction false} ElementsShrink(t: MetadataType, n: nat, bs: seq<byte>)
    requires t != TArray && ParseElements(t, n, bs).Got?
    ensures |ParseElements(t, n, bs).rest| <= |bs|
  {
    hide FromLittleEndian, IsUtf8, ScalarOf;
    if n > 0 {
      ElementsShrink(t, n - 1, ParseScalar(t, bs).rest);
    }
  }

  lemma FixedScalar(t: MetadataType, bs: seq<byte>)
    requires FixedWidth(t) && t != TBool && |bs| >= Width(t)
    ensures ParseScalar(t, bs).Got? && ParseScalar(t, bs).rest == bs[Width(t)..]
  {
    hide FromLittleEndian, Pow256;
    FromLittleEndianBound(bs[..Width(t)]);
  }

  /** Skipping `n` elements of a fixed width at once is reading them one by one. */
  lemma {:induction false} FixedElements(t: MetadataType, n: nat, bs: seq<byte>)
    requires FixedWidth(t) && t != TBool && n * Width(t) <= |bs|
    ensures
      var p := ParseElements(t, n, bs);
      p.Got? && p.rest == bs[n * Width(t)..]
  {
    hide ParseScalar, Width;
    if n > 0 {
      var w := Width(t);
      assert n * w == (n - 1) * w + w && (n - 1) * w >= 0;
      FixedScalar(t, bs);
      FixedElements(t, n - 1, bs[w..]);
      assert bs[w..][(n - 1) * w..] == bs[n * w..];
    } else {
      assert bs[0..] == bs;
    }
  }

  function Prepend(done: seq<MetadataValue>, p: Parsed<seq<MetadataValue>>): Parsed<seq<MetadataValue>> {
    if p.Fail? then Fail else Got(done + p.value, p.rest)
  }

  lemma {:induction false} ElementStep(t: MetadataType, n: nat, bs: seq<byte>, done: seq<MetadataValue>)
    requires t != TArray && n > 0
    ensures
      var p := ParseScalar(t, bs);
      Prepend(done, ParseElements(t, n, bs)) == if p.Fail? then Fail else Prepend(done + [p.value], ParseElements(t, n - 1, p.rest))
  {
    hide ParseScalar;
    var p := ParseScalar(t, bs);
    if p.Got? && ParseElements(t, n - 1, p.rest).Got? {
      Associate(done, [p.value], ParseElements(t, n - 1, p.rest).value);
    }
  }

  // ----- the reader -----

  class Reader {
    const bytes: seq<byte>
    var offset: nat

    ghost predicate Valid()
      reads this
    {
      offset <= |bytes| <= U64_MAX
    }

    ghost function Rest(): seq<byte>
      requires Valid()
      reads this
    {
      bytes[offset..]
    }

    /** A read succeeded exactly when the parser did, and moved as far. */
    ghost predicate Follows<S, T>(p: Parsed<S>, r: Option<T>)
      reads this
    {
      Valid() && (r.Some? <==> p.Got?) && (r.Some? ==> Rest() == p.rest)
    }

    constructor (input: seq<byte>)
      requires |input| <= U64_MAX
      ensures Valid() && bytes == input && Rest() == input
    {
      bytes := input;
      offset := 0;
    }

    predicate IsEmpty()
      reads this
    {
      offset == |bytes|
    }

    function RemainingLen(): (n: nat)
      requires Valid()
      reads this
      ensures n == |Rest()|
    {
      |bytes| - offset
    }

    method ReadBytes(count: nat) returns (r: Option<seq<byte>>)
      requires Valid()
      modifies this
      ensures Valid()
      ensures r.Some? <==> count <= |old(Rest())|
      ensures r.Some? ==> r.value == old(Rest())[..count] && Rest() == old(Rest())[count..]
    {
      var end := CheckedAdd(offset, count, U64_MAX);
      if end.None? || end.value > |bytes| {
        return None;
      }
      r := Some(bytes[offset..end.value]);
      offset := end.value;
    }

    method ReadNat(width: nat) returns (r: Option<nat>)
      requires Valid()
      modifies this
      ensures Follows(ParseNat(width, old(Rest())), r)
      ensures r.Some? ==> r.value == ParseNat(width, old(Rest())).value
    {
      hide FromLittleEndian;
      var raw := ReadBytes(width);
      r := if raw.None? then None else Some(FromLittleEndian(raw.value));
    }

    method ReadString() returns (r: Option<string>)
      requires Valid()
      modifies this
      ensures Follows(ParseText(old(Rest())), r)
      ensures r.Some? ==> r.value == Decoded(ParseText(old(Rest())).value)
      ensures r.Some? ==> Utf8.Encode(r.value) == ParseText(old(Rest())).value
    {
      hide FromLittleEndian, Utf8.Strict, Utf8.Encode;
      var len := ReadNat(4);
      if len.None? {
        return None;
      }
      var raw := ReadBytes(len.value);
      if raw.None? {
        return None;
      }
      r := Utf8.Strict(raw.value);
      if r.Some? {
        Utf8.StrictDecodes(raw.value, r.value);
      }
    }

    /** Reads `len` texts. */
    method ReadStrings(len: nat) returns (r: Option<seq<string>>)
      requires Valid()
      modifies this
      ensures Follows(ParseElements(TString, len, old(Rest())), r)
      ensures r.Some? ==> r.value == Strings(ParseElements(TString, len, old(Rest())).value)
    {
      hide ParseText, Decoded, Utf8.Encode, ParseElements;
      var values: seq<string> := [];
      ghost var done: seq<MetadataValue> := [];
      ghost var whole := ParseElements(TString, len, Rest());
      NothingPrepended(whole);
      for index := 0 to len
        invariant Valid() && values == Strings(done)
        invariant whole == Prepend(done, ParseElements(TString, len - index, Rest()))
      {
        ghost var before := Rest();
        ElementStep(TString, len - index, before, done);
        var s := ReadString();
        if s.None? {
          return None;
        }
        done := done + [Str(ParseText(before).value)];
        values := values + [s.value];
      }
      NoElements(TString, Rest(), done);
      r := Some(values);
    }

    /** Reads `len` signed 32-bit integers. */
    method ReadInts(len: nat) returns (r: Option<seq<int>>)
      requires Valid()
      modifies this
      ensures Follows(ParseElements(TInt32, len, old(Rest())), r)
      ensures r.Some? ==> r.value == Ints(ParseElements(TInt32, len, old(Rest())).value)
    {
      hide ParseElements, FromLittleEndian, Pow256, ParseScalar;
      var values: seq<int> := [];
      ghost var done: seq<MetadataValue> := [];
      ghost var whole := ParseElements(TInt32, len, Rest());
      NothingPrepended(whole);
      for index := 0 to len
        invariant Valid() && values == Ints(done)
        invariant whole == Prepend(done, ParseElements(TInt32, len - index, Rest()))
      {
        ghost var before := Rest();
        ElementStep(TInt32, len - index, before, done);
        IntScalar(before);
        var n := ReadNat(4);
        if n.None? {
          return None;
        }
        FromLittleEndianBound(before[..4]);
        done := done + [I32(ToSigned(n.value, 4))];
        values := values + [ToSigned(n.value, 4)];
      }
      NoElements(TInt32, Rest(), done);
      r := Some(values);
    }

    /** Checks `len` one-byte truth values. */
    method ReadBools(len: nat) returns (ok: bool)
      requires Valid()
      modifies this
      ensures Follows(ParseElements(TBool, len, old(Rest())), if ok then Some(()) else None)
    {
      hide ParseElements, FromLittleEndian, Pow256, ParseScalar;
      ghost var done: seq<MetadataValue> := [];
      ghost var whole := ParseElements(TBool, len, Rest());
      NothingPrepended(whole);
      for index := 0 to len
        invariant Valid()
        invariant whole == Prepend(done, ParseElements(TBool, len - index, Rest()))
      {
        ghost var before := Rest();
        ElementStep(TBool, len - index, before, done);
        BoolScalar(before);
        var raw := ReadBytes(1);
        if raw.None? || raw.value[0] > 1 {
          return false;
        }
        done := done + [Bool(raw.value[0] == 1)];
      }
      NoElements(TBool, Rest(), done);
      ok := true;
    }

    /** Whether `len` elements could fit in what remains. */
    method EnsureArrayFits(elementType: nat, len: nat) returns (ok: bool)
      requires Valid() && elementType != 9
      ensures ok <==> elementType <= 12 && len * MinSize(TypeOfCode(elementType).value) <= |Rest()|
    {
      if elementType > 12 {
        return false;
      }
      var size := MinSize(TypeOfCode(elementType).value);
      ok := len <= RemainingLen() / size;
      DivisionBound(len, |Rest()|, size);
    }

    /** The elements of an array of known type and length. */
    method ReadElements(key: string, t: MetadataType, len: nat) returns (r: Option<SpecValue>)
      requires Valid() && t != TArray && len * MinSize(t) <= |Rest()|
      modifies this
      ensures Follows(ParseElements(t, len, old(Rest())), r)
      ensures r.Some? ==> r.value == Kept(key, Arr(t, ParseElements(t, len, old(Rest())).value))
    {
      hide ParseElements, Strings, Ints;
      if t == TString {
        var values := ReadStrings(len);
        if values.None? {
          return None;
        }
        r := Some(if UsedStringArray(key) then VStringArray(values.value) else Ignored);
      } else if t == TInt32 {
        var values := ReadInts(len);
        if values.None? {
          return None;
        }
        r := Some(if key == TOKEN_TYPE then VI32Array(values.value) else Ignored);
      } else if t == TBool {
        var ok := ReadBools(len);
        r := if ok then Some(Ignored) else None;
      } else {
        FixedElements(t, len, Rest());
        var raw := ReadBytes(len * Width(t));
        r := Some(Ignored);
      }
    }

    method ReadArray(key: string) returns (r: Option<SpecValue>)
      requires Valid()
      modifies this
      ensures Follows(ParseArray(key == TOKENS, old(Rest())), r)
      ensures r.Some? ==> r.value == Kept(key, ParseArray(key == TOKENS, old(Rest())).value)
    {
      hide ParseElements, ParseNat, Kept, TypeOfCode;
      var elementType := ReadNat(4);
      if elementType.None? || elementType.value == 9 {
        return None;
      }
      var len := ReadNat(8);
      if len.None? || (key == TOKENS && len.value > I32_MAX) {
        return None;
      }
      var fits := EnsureArrayFits(elementType.value, len.value);
      if !fits {
        if elementType.value <= 12 && ParseElements(TypeOfCode(elementType.value).value, len.value, Rest()).Got? {
          ElementsNeed(TypeOfCode(elementType.value).value, len.value, Rest());
        }
        return None;
      }
      r := ReadElements(key, TypeOfCode(elementType.value).value, len.value);
    }

    /** The value behind a type code. */
    method ReadValue(valueType: nat, key: string) returns (r: Option<SpecValue>)
      requires Valid()
      modifies this
      ensures Follows(ParsePayload(key == TOKENS, valueType, old(Rest())), r)
      ensures r.Some? ==> r.value == Kept(key, ParsePayload(key == TOKENS, valueType, old(Rest())).value)
    {
      hide ParseArray;
      if valueType == 9 {
        r := ReadArray(key);
      } else if valueType > 12 {
        r := None;
      } else {
        r := ReadScalar(key, TypeOfCode(valueType).value);
      }
    }

    method ReadScalar(key: string, t: MetadataType) returns (r: Option<SpecValue>)
      requires Valid() && t != TArray
      modifies this
      ensures Follows(ParseScalar(t, old(Rest())), r)
      ensures r.Some? ==> r.value == Kept(key, ParseScalar(t, old(Rest())).value)
    {
      hide ParseText, FromLittleEndian, Decoded, Pow256, Utf8.Encode, ScalarOf;
      if t == TString {
        var s := ReadString();
        r := if s.None? then None else Some(VString(s.value));
      } else if t == TBool {
        BoolScalar(Rest());
        var raw := ReadBytes(1);
        r := if raw.None? || raw.value[0] > 1 then None else Some(VBool(raw.value[0] == 1));
      } else if t == TUint32 {
        UintScalar(Rest());
        var n := ReadNat(4);
        r := if n.None? then None else Some(VU32(n.value));
      } else {
        WideScalar(key, t, Rest());
        var raw := ReadBytes(Width(t));
        r := if raw.None? then None else Some(Ignored);
      }
    }
  }

  lemma UintScalar(bs: seq<byte>)
    ensures ParseScalar(TUint32, bs) == if |bs| < 4 then Fail else Got(U32(FromLittleEndian(bs[..4])), bs[4..])
  {
    hide FromLittleEndian, Pow256;
    if |bs| >= 4 {
      FromLittleEndianBound(bs[..4]);
    }
  }

  lemma WideScalar(key: string, t: MetadataType, bs: seq<byte>)
    requires FixedWidth(t) && t != TBool && t != TUint32
    ensures ParseScalar(t, bs).Got? <==> |bs| >= Width(t)
    ensures ParseScalar(t, bs).Got? ==> ParseScalar(t, bs).rest == bs[Width(t)..]
    ensures ParseScalar(t, bs).Got? ==> Kept(key, ParseScalar(t, bs).value) == Ignored
  {
    hide FromLittleEndian, Pow256;
    if |bs| >= Width(t) {
      FromLittleEndianBound(bs[..Width(t)]);
    }
  }

  lemma NothingPrepended(p: Parsed<seq<MetadataValue>>)
    ensures p == Prepend([], p)
  {
    if p.Got? {
      assert [] + p.value == p.value;
    }
  }

  lemma NoElements(t: MetadataType, bs: seq<byte>, done: seq<MetadataValue>)
    requires t != TArray
    ensures Prepend(done, ParseElements(t, 0, bs)) == Got(done, bs)
  {
    assert done + [] == done;
  }

  lemma IntScalar(bs: seq<byte>)
    ensures ParseScalar(TInt32, bs) == if |bs| < 4 then Fail else
              (FromLittleEndianBound(bs[..4]); Got(I32(ToSigned(FromLittleEndian(bs[..4]), 4)), bs[4..]))
  {
    hide FromLittleEndian, Pow256;
    if |bs| >= 4 {
      FromLittleEndianBound(bs[..4]);
    }
  }

  lemma BoolScalar(bs: seq<byte>)
    ensures ParseScalar(TBool, bs) == if |bs| < 1 || bs[0] > 1 then Fail else Got(Bool(bs[0] == 1), bs[1..])
  {
    if |bs| >= 1 {
      FromLittleEndianBound(bs[..1]);
      assert bs[..1][1..] == [];
      assert FromLittleEndian(bs[..1]) == bs[0];
    }
  }

  lemma DivisionBound(n: nat, total: nat, size: nat)
    requires size > 0
    ensures n <= total / size <==> n * size <= total
  {
    if n <= total / size {
      MulLe(n, total / size, size);
    } else {
      MulLe(total / size + 1, n, size);
    }
  }

  // ----- the whole specification -----

  const SPEC_VERSION: nat := 1

  /** One entry: its key, which must come after the previous one, and its value. */
  method ReadEntry(reader: Reader, previous: Option<string>) returns (r: Option<(string, SpecValue)>)
    requires reader.Valid()
    modifies reader
    ensures reader.Follows(ParseNext(EncodedKey(previous), old(reader.Rest())), r)
    ensures r.Some? ==>
      var e := ParseNext(EncodedKey(previous), old(reader.Rest())).value;
      e.key == Utf8.Encode(r.value.0) && r.value.0 == Decoded(e.key) && r.value.1 == Kept(r.value.0, e.value)
  {
    hide ParseText, ParsePayload, FromLittleEndian, Kept, Decoded, Utf8.Encode, LexOrder.Less;
    ghost var start := reader.Rest();
    var key := reader.ReadString();
    if key.None? {
      return None;
    }
    KeysEqual(key.value, TOKENS);
    if previous.Some? {
      KeyOrder(previous.value, key.value);
      if key.value == previous.value || LexOrder.Less(Utf8.Encode(key.value), Utf8.Encode(previous.value)) {
        return None;
      }
    }
    var valueType := reader.ReadNat(4);
    if valueType.None? {
      return None;
    }
    var value := reader.ReadValue(valueType.value, key.value);
    if value.None? {
      return None;
    }
    r := Some((key.value, value.value));
  }

  ghost function EncodedKey(key: Option<string>): Option<seq<byte>> {
    if key.None? then None else Some(Utf8.Encode(key.value))
  }

  /** An entry whose key comes after the previous one. */
  ghost function ParseNext(previous: Option<seq<byte>>, bs: seq<byte>): Parsed<Entry> {
    match ParseEntry(bs)
    case Fail => Fail
    case Got(e, rest) => if previous.Some? && !LexOrder.Less(previous.value, e.key) then Fail else Got(e, rest)
  }

  lemma KeysEqual(a: string, b: string)
    ensures a == b <==> Utf8.Encode(a) == Utf8.Encode(b)
  {
    hide Utf8.Strict, Utf8.Encode;
    Utf8.StrictDecodes(Utf8.Encode(a), a);
    Utf8.StrictDecodes(Utf8.Encode(b), b);
  }

  lemma KeyOrder(a: string, b: string)
    ensures LexOrder.Less(Utf8.Encode(a), Utf8.Encode(b)) <==> b != a && !LexOrder.Less(Utf8.Encode(b), Utf8.Encode(a))
  {
    hide Utf8.Encode, LexOrder.Less;
    var x, y := Utf8.Encode(a), Utf8.Encode(b);
    KeysEqual(a, b);
    LexOrder.Total(x, y);
    LexOrder.Irreflexive(x);
    if LexOrder.Less(x, y) {
      LexOrder.Asymmetric(x, y);
    }
  }

  function PrependEntries(done: seq<Entry>, p: Parsed<seq<Entry>>): Parsed<seq<Entry>> {
    if p.Fail? then Fail else Got(done + p.value, p.rest)
  }

  lemma {:induction false} EntryStep(n: nat, previous: Option<seq<byte>>, bs: seq<byte>, done: seq<Entry>)
    requires n > 0
    ensures
      var p := ParseNext(previous, bs);
      PrependEntries(done, ParseEntries(n, previous, bs))
      == if p.Fail? then Fail else PrependEntries(done + [p.value], ParseEntries(n - 1, Some(p.value.key), p.rest))
  {
    hide ParseEntry, LexOrder.Less;
    var p := ParseNext(previous, bs);
    if p.Got? && ParseEntries(n - 1, Some(p.value.key), p.rest).Got? {
      Associate(done, [p.value], ParseEntries(n - 1, Some(p.value.key), p.rest).value);
    }
  }

  /** Every key read so far is at most the last one, so no key can repeat. */
  ghost predicate KeysUpTo(entries: Metadata, previous: Option<string>) {
    forall k :: k in entries ==>
      previous.Some? && (k == previous.value || LexOrder.Less(Utf8.Encode(k), Utf8.Encode(previous.value)))
  }

  lemma KeyIsNew(entries: Metadata, previous: Option<string>, key: string, v: SpecValue)
    requires KeysUpTo(entries, previous)
    requires previous.Some? ==> LexOrder.Less(Utf8.Encode(previous.value), Utf8.Encode(key))
    ensures key !in entries
    ensures KeysUpTo(entries[key := v], Some(key))
  {
    hide LexOrder.Less, Utf8.Encode;
    forall k | k in entries
      ensures k != key && LexOrder.Less(Utf8.Encode(k), Utf8.Encode(key))
    {
      if k != previous.value {
        LexOrder.Transitive(Utf8.Encode(k), Utf8.Encode(previous.value), Utf8.Encode(key));
      }
      LexOrder.Irreflexive(Utf8.Encode(key));
    }
  }

  method ReadEntries(reader: Reader, count: nat) returns (r: Option<Metadata>)
    requires reader.Valid()
    modifies reader
    ensures reader.Follows(ParseEntries(count, None, old(reader.Rest())), r)
    ensures r.Some? ==> r.value == MetadataOf(ParseEntries(count, None, old(reader.Rest())).value)
  {
    hide ParseEntry, ParseEntries, LexOrder.Less, Utf8.Encode, Decoded, Kept, KeysUpTo, ParseNext;
    var entries: Metadata := map[];
    var previous: Option<string> := None;
    ghost var done: seq<Entry> := [];
    ghost var whole := ParseEntries(count, None, reader.Rest());
    assert KeysUpTo(entries, previous) by { NoKeys(); }
    NoEntriesPrepended(whole);
    for index := 0 to count
      invariant reader.Valid() && entries == MetadataOf(done) && KeysUpTo(entries, previous)
      invariant whole == PrependEntries(done, ParseEntries(count - index, EncodedKey(previous), reader.Rest()))
    {
      ghost var before := reader.Rest();
      EntryStep(count - index, EncodedKey(previous), before, done);
      var next := ReadEntry(reader, previous);
      if next.None? {
        return None;
      }
      ghost var e := ParseNext(EncodedKey(previous), before).value;
      NextAfter(EncodedKey(previous), before);
      KeyIsNew(entries, previous, next.value.0, next.value.1);
      if next.value.0 in entries {
        return None;
      }
      entries := entries[next.value.0 := next.value.1];
      previous := Some(next.value.0);
      MetadataGrows(done, e);
      done := done + [e];
    }
    NoEntries(EncodedKey(previous), reader.Rest(), done);
    r := Some(entries);
  }

  lemma NoKeys()
    ensures KeysUpTo(map[], None)
  {
  }

  lemma NoEntriesPrepended(p: Parsed<seq<Entry>>)
    ensures p == PrependEntries([], p)
  {
    if p.Got? {
      assert [] + p.value == p.value;
    }
  }

  lemma NoEntries(previous: Option<seq<byte>>, bs: seq<byte>, done: seq<Entry>)
    ensures PrependEntries(done, ParseEntries(0, previous, bs)) == Got(done, bs)
  {
    assert done + [] == done;
  }

  lemma NextAfter(previous: Option<seq<byte>>, bs: seq<byte>)
    ensures ParseNext(previous, bs).Got? && previous.Some? ==> LexOrder.Less(previous.value, ParseNext(previous, bs).value.key)
  {
    hide ParseEntry, LexOrder.Less;
  }

  lemma {:induction false} MetadataGrows(done: seq<Entry>, e: Entry)
    ensures MetadataOf(done + [e]) == MetadataOf(done)[Decoded(e.key) := Kept(Decoded(e.key), e.value)]
  {
    assert (done + [e])[..|done|] == done;
  }

  /** The magic bytes and the version byte. */
  method ReadHeader(reader: Reader) returns (ok: bool)
    requires reader.Valid()
    modifies reader
    ensures reader.Valid()
    ensures ok <==> HEADER <= old(reader.Rest())
    ensures ok ==> reader.Rest() == old(reader.Rest())[8..]
  {
    ghost var start := reader.Rest();
    var magic := reader.ReadBytes(7);
    if magic.None? || magic.value != HEADER[..7] {
      return false;
    }
    assert reader.Rest() == start[7..];
    var version := reader.ReadBytes(1);
    if version.None? || version.value[0] != 1 {
      return false;
    }
    assert start[..8] == start[..7] + start[7..][..1];
    ok := true;
  }

  /** A count that the remaining bytes could carry, and its entries. */
  method ReadCounted(reader: Reader) returns (r: Option<Metadata>)
    requires reader.Valid()
    modifies reader
    ensures reader.Follows(ParseCounted(old(reader.Rest())), r)
    ensures r.Some? ==> r.value == MetadataOf(ParseCounted(old(reader.Rest())).value)
  {
    hide ParseEntries, ParseNat, Utf8.Encode, MetadataOf;
    var count := reader.ReadNat(4);
    if count.None? {
      return None;
    }
    DivisionBound(count.value, |reader.Rest()|, 8);
    if count.value > reader.RemainingLen() / 8 {
      if ParseEntries(count.value, None, reader.Rest()).Got? {
        EntriesNeed(count.value, None, reader.Rest());
      }
      return None;
    }
    r := ReadEntries(reader, count.value);
  }

  ghost function ParseCounted(bs: seq<byte>): Parsed<seq<Entry>> {
    match ParseNat(4, bs)
    case Fail => Fail
    case Got(n, rest) => ParseEntries(n, None, rest)
  }

  lemma SpecStaged(bytes: seq<byte>)
    ensures ParseSpec(bytes) ==
      if !(HEADER <= bytes) then None else
      match ParseCounted(bytes[8..])
      case Fail => None
      case Got(entries, rest) => if rest == [] then Some(entries) else None
  {
    hide ParseEntries, ParseNat;
  }

  /** Accepts exactly the specifications the parser accepts, the bounds on counts and array
      lengths notwithstanding. */
  method ParseTokenizerSpec(version: nat, bytes: seq<byte>) returns (r: Result<Metadata>)
    requires |bytes| <= U64_MAX
    ensures r.Ok? <==> version == SPEC_VERSION && ParseSpec(bytes).Some?
    ensures r.Ok? ==> r.value == MetadataOf(ParseSpec(bytes).value)
  {
    hide ParseCounted, MetadataOf, ParseSpec, HEADER;
    SpecStaged(bytes);
    if version != SPEC_VERSION {
      return Err;
    }
    var reader := new Reader(bytes);
    var ok := ReadHeader(reader);
    if !ok {
      return Err;
    }
    var entries := ReadCounted(reader);
    if entries.None? || !reader.IsEmpty() {
      return Err;
    }
    r := Ok(entries.value);
  }
}
