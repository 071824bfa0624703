/** The tokenizer metadata of a loaded model reaches the runtime unchanged. */
module WireTransfer {
  import opened Prelude
  import opened Gguf
  import opened Parsing
  import opened WireFormat
  import opened SpecMetadata
  import opened WireRoundTrip
  import opened SpecWriter
  import opened SpecReader
  import LexOrder
  import Utf8

  /** Every text inside a value is UTF-8. */
  predicate TextsUtf8(v: MetadataValue) {
    match v
    case Str(s) => IsUtf8(s)
    case Arr(_, values) => forall i :: 0 <= i < |values| ==> values[i].Str? ==> IsUtf8(values[i].text)
    case _ => true
  }

  ghost predicate TokenizerTextsUtf8(c: Catalog) {
    forall key :: key in c.metadata && Selected(key) ==> TextsUtf8(c.metadata[key])
  }

  // ----- what the catalog reader guarantees -----

  lemma {:induction false} AsciiIsUtf8(s: seq<byte>)
    requires forall i :: 0 <= i < |s| ==> s[i] < 0x80
    ensures IsUtf8(s)
  {
    if |s| > 0 {
      AsciiIsUtf8(s[1..]);
    }
  }

  lemma KeyIsUtf8(key: seq<byte>)
    requires ValidKey(key)
    ensures ReadableText(key)
  {
    hide IsUtf8;
    forall i | 0 <= i < |key|
      ensures key[i] < 0x80
    {
      assert ValidKeyByte(key, i);
    }
    AsciiIsUtf8(key);
  }

  /** A value of a catalog read with the default limits can be written. */
  lemma CatalogValue(v: MetadataValue)
    requires WellFormedValue(v, DEFAULT_LIMITS)
    ensures Typed(v) && Transmissible(v) && (v.Arr? ==> |v.values| <= I32_MAX)
    ensures ReadableValue(v) <==> TextsUtf8(v)
  {
    hide IsUtf8, Pow256, FitsSigned;
  }

  lemma {:induction false} KeysDiffer(previous: Option<seq<byte>>, entries: seq<Entry>, i: nat, j: nat)
    requires Ascending(previous, entries) && i < j < |entries|
    ensures entries[i].key != entries[j].key
    decreases |entries|
  {
    hide LexOrder.Less;
    if i == 0 {
      AscendingAbove(entries[0].key, entries[1..]);
      assert entries[j] == entries[1..][j - 1];
      LexOrder.Irreflexive(entries[0].key);
    } else {
      KeysDiffer(Some(entries[0].key), entries[1..], i - 1, j - 1);
    }
  }

  lemma {:induction false} CountEntries(entries: seq<Entry>, keys: set<seq<byte>>)
    requires forall i :: 0 <= i < |entries| ==> entries[i].key in keys
    requires forall i, j :: 0 <= i < j < |entries| ==> entries[i].key != entries[j].key
    ensures |entries| <= |keys|
  {
    if |entries| > 0 {
      var last := entries[|entries| - 1];
      CountEntries(entries[..|entries| - 1], keys - {last.key});
    }
  }

  /** The writer never fails on an accepted catalog that has a tokenizer key. */
  lemma NeverFailsToWrite(c: Catalog, fileSize: nat, entries: seq<Entry>)
    requires WellFormedCatalog(c, fileSize, DEFAULT_LIMITS) && SortedEntries(c.metadata, entries) && |entries| > 0
    ensures Serializable(entries) && AllTransmissible(entries) && AllRepresentable(entries)
  {
    hide PayloadsSafe, WellFormedTensor, WellFormedValue, ValidKey, Ascending, Selected, Transmissible;
    forall i, j | 0 <= i < j < |entries|
      ensures entries[i].key != entries[j].key
    {
      KeysDiffer(None, entries, i, j);
    }
    CountEntries(entries, c.metadata.Keys);
    forall i | 0 <= i < |entries|
      ensures |entries[i].key| <= U32_MAX && Transmissible(entries[i].value)
    {
      assert entries[i] in entries;
      CatalogValue(entries[i].value);
    }
    TransmissibleWritable(entries);
  }

  lemma TransmissibleWritable(entries: seq<Entry>)
    requires AllTransmissible(entries)
    ensures AllRepresentable(entries) && forall i :: 0 <= i < |entries| ==> Writable(entries[i])
  {
    hide Representable, WritableValue;
  }

  // ----- what the runtime receives -----

  /** The runtime accepts what was written exactly when every text in it is UTF-8, and then
      reads back the entries that were written. */
  lemma TransferAccepted(c: Catalog, fileSize: nat, entries: seq<Entry>)
    requires WellFormedCatalog(c, fileSize, DEFAULT_LIMITS) && SortedEntries(c.metadata, entries) && |entries| > 0
    ensures Serializable(entries) && AllRepresentable(entries)
    ensures ParseSpec(PrintSpec(entries)) == if TokenizerTextsUtf8(c) then Some(entries) else None
  {
    hide PayloadsSafe, WellFormedTensor, WellFormedValue, ValidKey, Ascending, Selected, Transmissible,
      Representable, TextsUtf8, ReadableValue, PrintEntries, LittleEndian, ParseEntries, ParseNat, Writable;
    NeverFailsToWrite(c, fileSize, entries);
    forall i | 0 <= i < |entries|
      ensures ReadableEntry(entries[i]) <==> TextsUtf8(entries[i].value)
    {
      assert entries[i] in entries;
      KeyIsUtf8(entries[i].key);
      CatalogValue(entries[i].value);
    }
    assert AllReadable(entries) <==> TokenizerTextsUtf8(c);
    Pow256Values();
    EntriesPrinted(None, entries, []);
    NatPrinted(4, |entries|, PrintEntries(entries));
    var bs := PrintSpec(entries);
    assert PrintEntries(entries) + [] == PrintEntries(entries);
    assert HEADER <= bs && bs[8..] == LittleEndian(|entries|, 4) + PrintEntries(entries);
  }

  lemma DecodedKey(raw: seq<byte>, key: string)
    requires IsUtf8(raw)
    ensures Decoded(raw) == key <==> raw == Utf8.Encode(key)
  {
    hide Utf8.Strict, Utf8.Encode;
    Utf8.StrictDecodes(raw, key);
  }

  ghost predicate TextKeys(entries: seq<Entry>) {
    (forall i :: 0 <= i < |entries| ==> IsUtf8(entries[i].key))
    && forall i, j :: 0 <= i < j < |entries| ==> entries[i].key != entries[j].key
  }

  lemma {:induction false} LookUp(entries: seq<Entry>, key: string)
    requires TextKeys(entries)
    ensures key in MetadataOf(entries) <==> exists i :: 0 <= i < |entries| && entries[i].key == Utf8.Encode(key)
    ensures forall i :: 0 <= i < |entries| && entries[i].key == Utf8.Encode(key) ==>
      key in MetadataOf(entries) && MetadataOf(entries)[key] == Kept(key, entries[i].value)
  {
    hide IsUtf8, Decoded, Kept, Utf8.Encode;
    if |entries| > 0 {
      var front, last := entries[..|entries| - 1], entries[|entries| - 1];
      LookUp(front, key);
      DecodedKey(last.key, key);
      assert forall i :: 0 <= i < |front| ==> front[i] == entries[i];
      if last.key == Utf8.Encode(key) {
        assert entries[|front|].key == Utf8.Encode(key);
      }
    }
  }

  /** What the runtime then holds: the tokenizer keys of the catalog, each with its value. */
  lemma {:induction false} MetadataArrives(c: Catalog, fileSize: nat, entries: seq<Entry>, key: string)
    requires WellFormedCatalog(c, fileSize, DEFAULT_LIMITS) && SortedEntries(c.metadata, entries)
    ensures key in MetadataOf(entries) <==> Utf8.Encode(key) in c.metadata && Selected(Utf8.Encode(key))
    ensures key in MetadataOf(entries) ==> MetadataOf(entries)[key] == Kept(key, c.metadata[Utf8.Encode(key)])
  {
    hide PayloadsSafe, WellFormedTensor, WellFormedValue, ValidKey, Ascending, Selected, IsUtf8, MetadataOf, Utf8.Encode, Kept;
    forall i, j | 0 <= i < j < |entries|
      ensures entries[i].key != entries[j].key
    {
      KeysDiffer(None, entries, i, j);
    }
    forall i | 0 <= i < |entries|
      ensures IsUtf8(entries[i].key) && entries[i] in entries
    {
      assert entries[i] in entries;
      KeyIsUtf8(entries[i].key);
    }
    LookUp(entries, key);
  }

  // ----- each value, as the runtime sees it -----

  lemma DecodedIs(s: seq<byte>)
    requires IsUtf8(s)
    ensures Utf8.Encode(Decoded(s)) == s
  {
    hide Utf8.Strict, Utf8.Encode;
    Utf8.StrictDecodes(s, Decoded(s));
  }

  /** What of a value the tokenizer gets to see: numbers, flags and texts as they are, the two lists of
      texts and the list of types under their own keys. */
  ghost predicate SeenAs(key: string, v: MetadataValue, seen: SpecValue) {
    match v
    case U32(n) => seen == VU32(n)
    case Bool(b) => seen == VBool(b)
    case Str(s) => seen.VString? && Utf8.Encode(seen.text) == s
    case Arr(t, values) =>
      && (t.TString? && key in {"tokenizer.ggml.tokens", "tokenizer.ggml.merges"} ==>
            seen.VStringArray? && |seen.strings| == |values|
            && forall i :: 0 <= i < |values| ==> values[i] == Str(Utf8.Encode(seen.strings[i])))
      && (t.TInt32? && key == "tokenizer.ggml.token_type" ==>
            seen.VI32Array? && |seen.ints| == |values|
            && forall i :: 0 <= i < |values| ==> values[i] == I32(seen.ints[i]))
    case _ => true
  }

  lemma {:induction false} KeptIsSeen(key: string, v: MetadataValue)
    requires TextsUtf8(v) && Transmissible(v)
    ensures SeenAs(key, v, Kept(key, v))
  {
    hide IsUtf8, Decoded, Utf8.Encode, Pow256, FitsSigned;
    match v
    case Str(s) => DecodedIs(s);
    case Arr(t, values) =>
      forall i | 0 <= i < |values|
        ensures values[i].Type() == t
      {
        assert WritableScalar(t, values[i]);
      }
      if t.TString? {
        forall i | 0 <= i < |values|
          ensures values[i] == Str(Utf8.Encode(Decoded(values[i].text)))
        {
          DecodedIs(values[i].text);
        }
      }
    case _ =>
  }

  /** The runtime holds a value for exactly the keys of the catalog that begin with "tokenizer.", and holds the
      value the catalog has. */
  lemma {:induction false} ValueArrives(c: Catalog, fileSize: nat, entries: seq<Entry>, key: string)
    requires WellFormedCatalog(c, fileSize, DEFAULT_LIMITS) && SortedEntries(c.metadata, entries) && TokenizerTextsUtf8(c)
    ensures key in MetadataOf(entries) <==> Utf8.Encode(key) in c.metadata && "tokenizer." <= key
    ensures key in MetadataOf(entries) ==> SeenAs(key, c.metadata[Utf8.Encode(key)], MetadataOf(entries)[key])
  {
    hide PayloadsSafe, WellFormedTensor, WellFormedValue, ValidKey, SortedEntries, TextsUtf8, MetadataOf, Utf8.Encode, Kept, SeenAs;
    MetadataArrives(c, fileSize, entries, key);
    PrefixBytes(key);
    if key in MetadataOf(entries) {
      CatalogValue(c.metadata[Utf8.Encode(key)]);
      KeptIsSeen(key, c.metadata[Utf8.Encode(key)]);
    }
  }

  lemma PrefixBytes(key: string)
    ensures Selected(Utf8.Encode(key)) <==> "tokenizer." <= key
  {
    hide Utf8.Encode;
    Utf8.EncodedPrefix("tokenizer.", key);
  }
}
