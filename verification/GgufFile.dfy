/** `read_catalog`: which files it accepts, exactly, and what an accepted file guarantees. */
module GgufFile {
  import opened Prelude
  import opened Gguf
  import opened Parsing
  import opened GgufParse
  import opened GgufRoundTrip
  import opened GgufReader
  import opened GgufCatalog

  /** The bytes start with the header of these entries and descriptors, within the limits. */
  ghost predicate IsHeaderOf(bytes: seq<byte>, limits: Limits, entries: seq<Entry>, tensors: seq<TensorInfo>) {
    && GoodEntries(entries, limits) && WellFormedEntries(entries, limits) && GoodTensors(tensors, limits)
    && |entries| <= limits.maxMetadata && |tensors| <= limits.maxTensors
    && EntriesCharge(entries, limits) + TensorsCharge(tensors) <= limits.maxCatalogBytes
    && EncodeHeader(entries, tensors, limits) <= bytes
  }

  /** The bytes are a file with this catalog: a header, tensor data from the next multiple of the
      alignment on, and every payload in its place. */
  ghost predicate IsFileOf(bytes: seq<byte>, limits: Limits, entries: seq<Entry>, c: Catalog)
    requires |bytes| <= U64_MAX
  {
    && IsHeaderOf(bytes, limits, entries, c.tensors)
    && c.metadata == MapOf(entries) && CatalogAlignment(c.metadata) == Ok(c.alignment)
    && AlignUp(|EncodeHeader(entries, c.tensors, limits)|, c.alignment) == Some(c.tensorDataOffset)
    && c.tensorDataOffset <= |bytes| && PayloadsSafe(c, |bytes|)
  }

  // ----- parsing a whole file -----

  ghost function TakeBody(tensors: nat, entries: nat, bs: seq<byte>, limits: Limits): Taken<(seq<Entry>, seq<TensorInfo>)> {
    if tensors > limits.maxTensors || entries > limits.maxMetadata then Stuck else
    match TakeEntries(entries, {}, bs, 0, limits)
    case Stuck => Stuck
    case Took(es, rest, c) =>
      match TakeTensors(tensors, {}, rest, c, limits)
      case Stuck => Stuck
      case Took(ts, rest', c') => Took((es, ts), rest', c')
  }

  ghost function TakeHeader(bytes: seq<byte>, limits: Limits): Taken<(seq<Entry>, seq<TensorInfo>)> {
    match TakeCounts(bytes)
    case Fail => Stuck
    case Got(counts, rest) => TakeBody(counts.0, counts.1, rest, limits)
  }

  // ----- the counts -----

  function CountBytes(tensors: nat, entries: nat): seq<byte> {
    MAGIC + (LittleEndian(3, 4) + (LittleEndian(tensors, 8) + LittleEndian(entries, 8)))
  }

  lemma {:induction false} CountsWritten(tensors: nat, entries: nat, rest: seq<byte>)
    requires tensors <= U64_MAX && entries <= U64_MAX
    ensures TakeCounts(CountBytes(tensors, entries) + rest) == Got((tensors, entries), rest)
  {
    hide LittleEndian, Pow256, ParseNat;
    Pow256Values();
    var v, t, e := LittleEndian(3, 4), LittleEndian(tensors, 8), LittleEndian(entries, 8);
    var bs := CountBytes(tensors, entries) + rest;
    Associate(MAGIC, v + (t + e), rest);
    Associate(v, t + e, rest);
    Associate(t, e, rest);
    assert MAGIC <= bs && bs[4..] == v + (t + (e + rest));
    NatPrinted(4, 3, t + (e + rest));
    NatPrinted(8, tensors, e + rest);
    NatPrinted(8, entries, rest);
  }

  lemma {:induction false} CountsRead(bs: seq<byte>)
    requires TakeCounts(bs).Got?
    ensures
      var p := TakeCounts(bs);
      p.value.0 <= U64_MAX && p.value.1 <= U64_MAX && bs == CountBytes(p.value.0, p.value.1) + p.rest
  {
    hide LittleEndian, Pow256, ParseNat;
    Pow256Values();
    var version := ParseNat(4, bs[4..]);
    var tensors := ParseNat(8, version.rest);
    var entries := ParseNat(8, tensors.rest);
    NatParsed(4, bs[4..]);
    NatParsed(8, version.rest);
    NatParsed(8, tensors.rest);
    var v, t, e := LittleEndian(3, 4), LittleEndian(tensors.value, 8), LittleEndian(entries.value, 8);
    Associate(t, e, entries.rest);
    Associate(v, t + e, entries.rest);
    Associate(MAGIC, v + (t + e), entries.rest);
    assert bs == MAGIC + bs[4..];
  }

  lemma {:induction false} HeaderBytes(entries: seq<Entry>, tensors: seq<TensorInfo>, limits: Limits)
    requires WellFormedEntries(entries, limits)
    ensures EncodeHeader(entries, tensors, limits)
            == CountBytes(|tensors|, |entries|) + (EncodeEntries(entries, limits) + EncodeTensors(tensors))
  {
    hide LittleEndian, EncodeEntries, EncodeTensors, WellFormedValue;
    var v, t, e := LittleEndian(3, 4), LittleEndian(|tensors|, 8), LittleEndian(|entries|, 8);
    var body := EncodeEntries(entries, limits) + EncodeTensors(tensors);
    Associate(t, e, body);
    Associate(v, t + e, body);
    Associate(MAGIC, v + (t + e), body);
  }

  // ----- the header -----

  /** A header within the limits is taken, whatever follows it. */
  lemma {:induction false} HeaderWritten(bytes: seq<byte>, limits: Limits, entries: seq<Entry>, tensors: seq<TensorInfo>)
    requires IsHeaderOf(bytes, limits, entries, tensors) && LimitsFit(limits)
    ensures TakeHeader(bytes, limits) == Took((entries, tensors), bytes[|EncodeHeader(entries, tensors, limits)|..],
                                              EntriesCharge(entries, limits) + TensorsCharge(tensors))
  {
    hide LittleEndian, EncodeEntries, EncodeTensors, EncodeHeader, CountBytes, TakeCounts, TakeEntries, TakeTensors,
         GoodEntries, GoodTensors, WellFormedEntries, EntriesCharge, TensorsCharge;
    var header := EncodeHeader(entries, tensors, limits);
    var tail := bytes[|header|..];
    assert bytes == header + tail;
    HeaderBytes(entries, tensors, limits);
    var es, ts := EncodeEntries(entries, limits), EncodeTensors(tensors);
    Associate(CountBytes(|tensors|, |entries|), es + ts, tail);
    Associate(es, ts, tail);
    CountsWritten(|tensors|, |entries|, es + (ts + tail));
    EntriesWritten(entries, {}, ts + tail, 0, limits);
    TensorsWritten(tensors, {}, tail, EntriesCharge(entries, limits), limits);
  }

  /** What is taken as a header is one. */
  lemma {:induction false} HeaderRead(bytes: seq<byte>, limits: Limits)
    requires TakeHeader(bytes, limits).Took?
    ensures
      var p := TakeHeader(bytes, limits);
      IsHeaderOf(bytes, limits, p.value.0, p.value.1) && bytes == EncodeHeader(p.value.0, p.value.1, limits) + p.rest
  {
    hide LittleEndian, EncodeEntries, EncodeTensors, EncodeHeader, CountBytes, TakeCounts, TakeEntries, TakeTensors,
         GoodEntries, GoodTensors, WellFormedEntries, EntriesCharge, TensorsCharge;
    var counts := TakeCounts(bytes);
    CountsRead(bytes);
    EntriesRead(counts.value.1, {}, counts.rest, 0, limits);
    var entries := TakeEntries(counts.value.1, {}, counts.rest, 0, limits);
    TensorsRead(counts.value.0, {}, entries.rest, entries.charged, limits);
    var p := TakeHeader(bytes, limits);
    var es, ts := EncodeEntries(p.value.0, limits), EncodeTensors(p.value.1);
    HeaderBytes(p.value.0, p.value.1, limits);
    Associate(es, ts, p.rest);
    Associate(CountBytes(counts.value.0, counts.value.1), es + ts, p.rest);
  }

  /** A file determines its entries and its catalog. */
  lemma {:induction false} FileUnique(bytes: seq<byte>, limits: Limits, es: seq<Entry>, c: Catalog, fs: seq<Entry>, d: Catalog)
    requires |bytes| <= U64_MAX && LimitsFit(limits)
    requires IsFileOf(bytes, limits, es, c) && IsFileOf(bytes, limits, fs, d)
    ensures es == fs && c == d
  {
    hide IsHeaderOf, PayloadsSafe, AlignUp, CatalogAlignment, TakeHeader, EncodeHeader;
    HeaderWritten(bytes, limits, es, c.tensors);
    HeaderWritten(bytes, limits, fs, d.tensors);
  }

  /** All that a catalog promises follows from being the catalog of a file. */
  lemma {:induction false} FileWellFormed(bytes: seq<byte>, limits: Limits, entries: seq<Entry>, c: Catalog)
    requires |bytes| <= U64_MAX && IsFileOf(bytes, limits, entries, c)
    ensures WellFormedCatalog(c, |bytes|, limits) && |c.tensors| <= limits.maxTensors
  {
    hide PayloadsSafe, AlignUp, CatalogAlignment, EncodeHeader, WellFormedTensor, WellFormedValue, ValidKey;
    MapOfGood(entries, limits);
  }

  lemma {:induction false} MapOfGood(entries: seq<Entry>, limits: Limits)
    requires forall i :: 0 <= i < |entries| ==> GoodEntry(entries[i], limits)
    ensures |MapOf(entries)| <= |entries|
    ensures forall k :: k in MapOf(entries) ==> GoodEntry(Entry(k, MapOf(entries)[k]), limits)
  {
    hide ValidKey, WellFormedValue;
    if |entries| > 0 {
      var front, last := entries[..|entries| - 1], entries[|entries| - 1];
      MapOfGood(front, limits);
      assert MapOf(entries).Keys == MapOf(front).Keys + {last.key};
      assert last == Entry(last.key, last.value);
    }
  }

  // ----- the reader -----

  method ReadHeader(reader: Reader)
    returns (r: Result<(map<seq<byte>, MetadataValue>, nat, seq<TensorInfo>)>, ghost entries: seq<Entry>)
    requires reader.Valid() && reader.catalogBytes == 0
    modifies reader`position, reader`catalogBytes
    ensures reader.Valid()
    ensures
      var p := TakeHeader(old(reader.Rest()), reader.limits);
      r.Ok? <==> p.Took? && CatalogAlignment(MapOf(p.value.0)).Ok?
    ensures r.Ok? ==>
      var p := TakeHeader(old(reader.Rest()), reader.limits);
      && p.value == (entries, r.value.2) && r.value.0 == MapOf(entries)
      && CatalogAlignment(r.value.0) == Ok(r.value.1) && reader.Rest() == p.rest
  {
    hide TakeCounts, TakeEntries, TakeTensors, MapOf, CatalogAlignment;
    r, entries := Err, [];
    var counts := ReadCounts(reader);
    if counts.Err? || counts.value.0 > reader.limits.maxTensors || counts.value.1 > reader.limits.maxMetadata {
      return;
    }
    var metadata;
    metadata, entries := ReadMetadata(reader, counts.value.1);
    if metadata.Err? {
      return;
    }
    var alignment := CatalogAlignment(metadata.value);
    if alignment.Err? {
      return;
    }
    var tensors := ReadTensors(reader, counts.value.0);
    if tensors.Err? {
      return;
    }
    r := Ok((metadata.value, alignment.value, tensors.value));
  }

  lemma FilesParse(bytes: seq<byte>, limits: Limits)
    requires |bytes| <= U64_MAX && LimitsFit(limits)
    ensures forall es, c :: IsFileOf(bytes, limits, es, c) ==>
      TakeHeader(bytes, limits).Took? && TakeHeader(bytes, limits).value == (es, c.tensors)
  {
    hide IsHeaderOf, PayloadsSafe, AlignUp, CatalogAlignment, TakeHeader, EncodeHeader, MapOf;
    forall es, c | IsFileOf(bytes, limits, es, c)
      ensures TakeHeader(bytes, limits).Took? && TakeHeader(bytes, limits).value == (es, c.tensors)
    {
      HeaderWritten(bytes, limits, es, c.tensors);
    }
  }

  lemma EndOfHeader(bytes: seq<byte>, header: seq<byte>, position: nat)
    requires position <= |bytes| && bytes == header + bytes[position..]
    ensures position == |header| && header <= bytes
  {
    assert |bytes| == |header| + (|bytes| - position);
  }

  lemma TensorFacts(tensors: seq<TensorInfo>, limits: Limits)
    requires GoodTensors(tensors, limits)
    ensures forall i, j :: 0 <= i < j < |tensors| ==> tensors[i].name != tensors[j].name
    ensures forall i :: 0 <= i < |tensors| ==> tensors[i].byteSize > 0
  {
    hide Product, AllBelow;
  }

  lemma HeaderTensors(bytes: seq<byte>, limits: Limits, entries: seq<Entry>, tensors: seq<TensorInfo>)
    requires IsHeaderOf(bytes, limits, entries, tensors)
    ensures GoodTensors(tensors, limits) && WellFormedEntries(entries, limits)
  {
  }

  /** Accepts exactly the files of the format that keep the limits, and answers their catalog. */
  method ReadCatalog(bytes: seq<byte>, limits: Limits) returns (r: Result<Catalog>, ghost entries: seq<Entry>)
    requires |bytes| <= U64_MAX && LimitsFit(limits)
    ensures r.Ok? ==> IsFileOf(bytes, limits, entries, r.value) && WellFormedCatalog(r.value, |bytes|, limits)
    ensures r.Err? ==> forall es, c :: !IsFileOf(bytes, limits, es, c)
  {
    hide MapOf, PayloadsSafe, WellFormedCatalog, CatalogAlignment, AlignUp, TakeHeader, IsHeaderOf, EncodeHeader,
         GoodEntries, GoodTensors, WellFormedEntries;
    var reader := new Reader(bytes, limits);
    var header;
    header, entries := ReadHeader(reader);
    FilesParse(bytes, limits);
    if header.Err? {
      return Err, entries;
    }
    HeaderRead(bytes, limits);
    HeaderTensors(bytes, limits, entries, header.value.2);
    EndOfHeader(bytes, EncodeHeader(entries, header.value.2, limits), reader.position);
    var dataOffset := AlignUp(reader.position, header.value.1);
    if dataOffset.None? || dataOffset.value > |bytes| {
      return Err, entries;
    }
    var c := Catalog(header.value.1, dataOffset.value, header.value.0, header.value.2);
    TensorFacts(header.value.2, limits);
    var safe := CheckSpans(c, |bytes|);
    if !safe {
      return Err, entries;
    }
    FileWellFormed(bytes, limits, entries, c);
    r := Ok(c);
  }
}
