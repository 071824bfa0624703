/** `read_catalog`: the checks around the reader, and the guarantees of an accepted file. */
module GgufCatalog {
  import opened Prelude
  import opened Gguf
  import opened Parsing
  import opened GgufParse
  import opened GgufReader

  // ----- the small checks -----

  method ValidMetadataKey(key: seq<byte>) returns (valid: bool)
    ensures valid <==> ValidKey(key)
  {
    if |key| == 0 || |key| > 65535 {
      return false;
    }
    var segmentStart := true;
    for i := 0 to |key|
      invariant segmentStart == (i == 0 || key[i - 1] == 0x2E)
      invariant segmentStart && i > 0 ==> i > 1 && key[i - 2] != 0x2E
      invariant forall j {:trigger ValidKeyByte(key, j)} :: 0 <= j < i && (j < i - 1 || !segmentStart) ==> ValidKeyByte(key, j)
    {
      assert segmentStart && i > 0 ==> ValidKeyByte(key, i - 1);
      var character := key[i];
      if character == 0x2E {
        if segmentStart {
          NotAKey(key, i);
          return false;
        }
        segmentStart := true;
      } else if segmentStart {
        if !IsLower(character) && !IsDigit(character) {
          NotAKey(key, i);
          return false;
        }
        segmentStart := false;
      } else if !IsLower(character) && !IsDigit(character) && character != 0x5F {
        NotAKey(key, i);
        return false;
      }
    }
    valid := !segmentStart;
    if valid {
      assert forall j :: 0 <= j < |key| ==> ValidKeyByte(key, j);
    } else {
      NotAKey(key, |key| - 1);
    }
  }

  lemma NotAKey(key: seq<byte>, i: nat)
    requires i < |key| && !ValidKeyByte(key, i)
    ensures !ValidKey(key)
  {
  }

  method TensorByteSize(kind: nat, dimensions: seq<nat>) returns (r: Result<nat>)
    ensures r.Ok? <==> ElementSize(kind) > 0 && (forall i :: 0 <= i < |dimensions| ==> dimensions[i] > 0)
                       && Product(dimensions) * ElementSize(kind) <= U64_MAX
    ensures r.Ok? ==> r.value == Product(dimensions) * ElementSize(kind) && r.value > 0
  {
    if ElementSize(kind) == 0 {
      return Err;
    }
    var elements := 1;
    for i := 0 to |dimensions|
      invariant elements == Product(dimensions[..i]) && elements > 0
      invariant forall j :: 0 <= j < i ==> dimensions[j] > 0
    {
      ProductSnoc(dimensions, i);
      if dimensions[i] == 0 {
        return Err;
      }
      var next := CheckedMul(elements, dimensions[i], U64_MAX);
      if next.None? {
        ProductTooBig(dimensions, i + 1, ElementSize(kind));
        return Err;
      }
      elements := next.value;
    }
    assert dimensions[..|dimensions|] == dimensions;
    var bytes := CheckedMul(elements, ElementSize(kind), U64_MAX);
    r := if bytes.Some? then Ok(bytes.value) else Err;
  }

  lemma {:induction false} ProductSnoc(dims: seq<nat>, i: nat)
    requires i < |dims|
    ensures Product(dims[..i + 1]) == Product(dims[..i]) * dims[i]
  {
    assert dims[..i + 1][..i] == dims[..i];
  }

  /** A partial product that is already too big stays too big, unless a later dimension is zero. */
  lemma {:induction false} ProductTooBig(dims: seq<nat>, i: nat, size: nat)
    requires i <= |dims| && Product(dims[..i]) > U64_MAX && size > 0
    ensures (exists j :: 0 <= j < |dims| && dims[j] == 0) || Product(dims) * size > U64_MAX
    decreases |dims| - i
  {
    if i == |dims| {
      assert dims[..i] == dims;
      MulLe(1, size, Product(dims));
    } else if dims[i] > 0 {
      ProductSnoc(dims, i);
      MulLe(1, dims[i], Product(dims[..i]));
      ProductTooBig(dims, i + 1, size);
    }
  }

  /** The least multiple of `alignment` at or above `value`, unless it passes 2^64 - 1. */
  function AlignUp(value: nat, alignment: nat): (r: Option<nat>)
    requires alignment > 0 && value <= U64_MAX
    ensures r.Some? ==> value <= r.value < value + alignment && r.value % alignment == 0 && r.value <= U64_MAX
    ensures r.None? ==> forall m :: value <= m <= U64_MAX ==> m % alignment != 0
  {
    var remainder := value % alignment;
    if remainder == 0 then Some(value)
    else
      NextMultiple(value, alignment);
      CheckedAdd(value, alignment - remainder, U64_MAX)
  }

  lemma {:induction false} NextMultiple(value: nat, alignment: nat)
    requires alignment > 0 && value % alignment != 0
    ensures (value + (alignment - value % alignment)) % alignment == 0
    ensures forall m :: value <= m < value + (alignment - value % alignment) ==> m % alignment != 0
  {
    var q, rem := value / alignment, value % alignment;
    assert value == alignment * q + rem;
    MultipleOf(alignment, q + 1, value + (alignment - rem));
    forall m | value <= m < value + (alignment - rem)
      ensures m % alignment != 0
    {
      RemainderOf(alignment, q, m);
    }
  }

  lemma {:induction false} MultipleOf(a: nat, q: nat, n: nat)
    requires a > 0 && n == a * q
    ensures n % a == 0
  {
    RemainderOf(a, q, n);
  }

  lemma {:induction false} RemainderOf(a: nat, q: nat, n: nat)
    requires a > 0 && a * q <= n < a * q + a
    ensures n % a == n - a * q
  {
    var q', r := n / a, n % a;
    assert n == a * q' + r;
    if q' < q {
      MulLe(q' + 1, q, a);
    } else if q < q' {
      MulLe(q + 1, q', a);
    }
  }

  /** 32 unless the metadata says otherwise with a nonzero multiple of eight. */
  function CatalogAlignment(metadata: map<seq<byte>, MetadataValue>): (r: Result<nat>)
    ensures r.Ok? ==> 0 < r.value <= U32_MAX && r.value % 8 == 0
    ensures ALIGNMENT_KEY !in metadata ==> r == Ok(32)
    ensures forall a: nat :: ALIGNMENT_KEY in metadata ==>
      (r == Ok(a) <==> metadata[ALIGNMENT_KEY] in {U32(a), U64(a)} && 0 < a <= U32_MAX && a % 8 == 0)
  {
    if ALIGNMENT_KEY !in metadata then Ok(32)
    else
      var value := metadata[ALIGNMENT_KEY];
      if !value.U32? && !value.U64? then Err
      else
        var alignment := if value.U32? then value.u32 else value.u64;
        if alignment == 0 || alignment % 8 != 0 || alignment > U32_MAX then Err else Ok(alignment)
  }

  // "general.alignment"
  const ALIGNMENT_KEY: seq<byte> :=
    [0x67, 0x65, 0x6E, 0x65, 0x72, 0x61, 0x6C, 0x2E, 0x61, 0x6C, 0x69, 0x67, 0x6E, 0x6D, 0x65, 0x6E, 0x74]

  // ----- metadata -----

  method ReadEntry(reader: Reader) returns (r: Result<Entry>)
    requires reader.Valid()
    modifies reader`position, reader`catalogBytes
    ensures reader.Follows(TakeEntry(old(reader.Rest()), old(reader.catalogBytes), reader.limits), r)
    ensures r.Ok? ==> r.value == TakeEntry(old(reader.Rest()), old(reader.catalogBytes), reader.limits).value
  {
    hide ValidKey, ParseNat, TakeString, TakeValue, TypeOfCode;
    var key := reader.ReadString();
    if key.Err? {
      return Err;
    }
    var valid := ValidMetadataKey(key.value);
    if !valid {
      return Err;
    }
    var code := reader.ReadUnsigned(4);
    if code.Err? || TypeOfCode(code.value).None? {
      return Err;
    }
    var value := reader.ReadValue(TypeOfCode(code.value).value);
    if value.Err? {
      return Err;
    }
    r := Ok(Entry(key.value, value.value));
  }

  /** The map an entry list builds up. */
  function MapOf(entries: seq<Entry>): (m: map<seq<byte>, MetadataValue>) {
    if |entries| == 0 then map[]
    else MapOf(entries[..|entries| - 1])[entries[|entries| - 1].key := entries[|entries| - 1].value]
  }

  method ReadMetadata(reader: Reader, count: nat)
    returns (r: Result<map<seq<byte>, MetadataValue>>, ghost entries: seq<Entry>)
    requires reader.Valid()
    modifies reader`position, reader`catalogBytes
    ensures reader.Follows(TakeEntries(count, {}, old(reader.Rest()), old(reader.catalogBytes), reader.limits), r)
    ensures r.Ok? ==> entries == TakeEntries(count, {}, old(reader.Rest()), old(reader.catalogBytes), reader.limits).value
    ensures r.Ok? ==> r.value == MapOf(entries)
  {
    hide TakeEntry, TakeEntries;
    var metadata := map[];
    entries := [];
    ghost var whole := TakeEntries(count, {}, reader.Rest(), reader.catalogBytes, reader.limits);
    assert metadata.Keys == {};
    NothingBefore(whole);
    for index := 0 to count
      invariant reader.Valid() && metadata == MapOf(entries)
      invariant whole == After(entries, TakeEntries(count - index, metadata.Keys, reader.Rest(), reader.catalogBytes, reader.limits))
    {
      EntryStep(count - index, metadata.Keys, reader.Rest(), reader.catalogBytes, reader.limits, entries);
      var entry := ReadEntry(reader);
      if entry.Err? || entry.value.key in metadata {
        return Err, entries;
      }
      MapGrows(entries, entry.value);
      entries := entries + [entry.value];
      metadata := metadata[entry.value.key := entry.value.value];
    }
    NoEntries(metadata.Keys, reader.Rest(), reader.catalogBytes, reader.limits, entries);
    r := Ok(metadata);
  }

  lemma {:induction false} MapGrows(entries: seq<Entry>, e: Entry)
    ensures MapOf(entries + [e]) == MapOf(entries)[e.key := e.value]
    ensures MapOf(entries)[e.key := e.value].Keys == MapOf(entries).Keys + {e.key}
  {
    assert (entries + [e])[..|entries|] == entries;
  }

  lemma {:induction false} EntryStep(n: nat, seen: set<seq<byte>>, bs: seq<byte>, charged: nat, limits: Limits, done: seq<Entry>)
    requires n > 0
    ensures
      var p := TakeEntry(bs, charged, limits);
      After(done, TakeEntries(n, seen, bs, charged, limits))
      == if p.Stuck? || p.value.key in seen then Stuck
         else After(done + [p.value], TakeEntries(n - 1, seen + {p.value.key}, p.rest, p.charged, limits))
  {
    hide TakeEntry;
    var p := TakeEntry(bs, charged, limits);
    if p.Took? && TakeEntries(n - 1, seen + {p.value.key}, p.rest, p.charged, limits).Took? {
      Associate(done, [p.value], TakeEntries(n - 1, seen + {p.value.key}, p.rest, p.charged, limits).value);
    }
  }

  lemma NoEntries(seen: set<seq<byte>>, bs: seq<byte>, charged: nat, limits: Limits, done: seq<Entry>)
    ensures After(done, TakeEntries(0, seen, bs, charged, limits)) == Took(done, bs, charged)
  {
    assert done + [] == done;
  }

  // ----- tensor descriptors -----

  method ReadDimensions(reader: Reader, rank: nat) returns (r: Result<seq<nat>>)
    requires reader.Valid()
    modifies reader`position
    ensures reader.Valid()
    ensures r.Ok? <==> TakeDimensions(rank, old(reader.Rest())).Got?
    ensures r.Ok? ==> r.value == TakeDimensions(rank, old(reader.Rest())).value
                      && reader.Rest() == TakeDimensions(rank, old(reader.Rest())).rest
  {
    hide ParseNat, TakeDimensions;
    var dimensions := [];
    ghost var whole := TakeDimensions(rank, reader.Rest());
    NoDimensionsBefore(whole);
    for index := 0 to rank
      invariant reader.Valid()
      invariant whole == AfterDimensions(dimensions, TakeDimensions(rank - index, reader.Rest()))
    {
      DimensionStep(rank - index, reader.Rest(), dimensions);
      var dimension := reader.ReadUnsigned(8);
      if dimension.Err? {
        return Err;
      }
      dimensions := dimensions + [dimension.value];
    }
    NoDimensions(reader.Rest(), dimensions);
    r := Ok(dimensions);
  }

  function AfterDimensions(done: seq<nat>, p: Parsed<seq<nat>>): Parsed<seq<nat>> {
    if p.Fail? then Fail else Got(done + p.value, p.rest)
  }

  lemma NoDimensionsBefore(p: Parsed<seq<nat>>)
    ensures p == AfterDimensions([], p)
  {
    if p.Got? {
      assert [] + p.value == p.value;
    }
  }

  lemma {:induction false} DimensionStep(n: nat, bs: seq<byte>, done: seq<nat>)
    requires n > 0
    ensures
      var p := ParseNat(8, bs);
      AfterDimensions(done, TakeDimensions(n, bs))
      == if p.Fail? then Fail else AfterDimensions(done + [p.value], TakeDimensions(n - 1, p.rest))
  {
    hide ParseNat;
    var p := ParseNat(8, bs);
    if p.Got? && TakeDimensions(n - 1, p.rest).Got? {
      Associate(done, [p.value], TakeDimensions(n - 1, p.rest).value);
    }
  }

  lemma NoDimensions(bs: seq<byte>, done: seq<nat>)
    ensures AfterDimensions(done, TakeDimensions(0, bs)) == Got(done, bs)
  {
    assert done + [] == done;
  }

  method ReadTensor(reader: Reader, names: set<seq<byte>>) returns (r: Result<TensorInfo>)
    requires reader.Valid()
    modifies reader`position, reader`catalogBytes
    ensures reader.Follows(TakeTensor(names, old(reader.Rest()), old(reader.catalogBytes), reader.limits), r)
    ensures r.Ok? ==> r.value == TakeTensor(names, old(reader.Rest()), old(reader.catalogBytes), reader.limits).value
  {
    hide ParseNat, TakeString, TakeShape;
    var name := reader.ReadString();
    if name.Err? || name.value in names {
      return Err;
    }
    var rank := reader.ReadUnsigned(4);
    if rank.Err? || rank.value == 0 || rank.value > reader.limits.maxRank {
      return Err;
    }
    var storage := CheckedMul(rank.value, 8, U64_MAX);
    if storage.None? {
      return Err;
    }
    var charged := reader.Charge(storage.value);
    if !charged {
      return Err;
    }
    r := ReadShape(reader, name.value, rank.value);
  }

  /** Dimensions, type and offset of a tensor. */
  method ReadShape(reader: Reader, name: seq<byte>, rank: nat) returns (r: Result<TensorInfo>)
    requires reader.Valid()
    modifies reader`position
    ensures reader.Follows(TakeShape(name, rank, old(reader.Rest()), reader.catalogBytes), r)
    ensures r.Ok? ==> r.value == TakeShape(name, rank, old(reader.Rest()), reader.catalogBytes).value
  {
    hide ParseNat, TakeDimensions, Product;
    var dimensions := ReadDimensions(reader, rank);
    if dimensions.Err? {
      return Err;
    }
    var kind := reader.ReadUnsigned(4);
    if kind.Err? {
      return Err;
    }
    var offset := reader.ReadUnsigned(8);
    if offset.Err? {
      return Err;
    }
    var byteSize := TensorByteSize(kind.value, dimensions.value);
    if byteSize.Err? {
      return Err;
    }
    r := Ok(TensorInfo(name, dimensions.value, kind.value, offset.value, byteSize.value));
  }

  method ReadTensors(reader: Reader, count: nat) returns (r: Result<seq<TensorInfo>>)
    requires reader.Valid()
    modifies reader`position, reader`catalogBytes
    ensures reader.Follows(TakeTensors(count, {}, old(reader.Rest()), old(reader.catalogBytes), reader.limits), r)
    ensures r.Ok? ==> r.value == TakeTensors(count, {}, old(reader.Rest()), old(reader.catalogBytes), reader.limits).value
  {
    hide TakeTensor, TakeTensors;
    var tensors := [];
    var names := {};
    ghost var whole := TakeTensors(count, {}, reader.Rest(), reader.catalogBytes, reader.limits);
    NothingBefore(whole);
    for index := 0 to count
      invariant reader.Valid()
      invariant whole == After(tensors, TakeTensors(count - index, names, reader.Rest(), reader.catalogBytes, reader.limits))
    {
      TensorStep(count - index, names, reader.Rest(), reader.catalogBytes, reader.limits, tensors);
      var tensor := ReadTensor(reader, names);
      if tensor.Err? {
        return Err;
      }
      names := names + {tensor.value.name};
      tensors := tensors + [tensor.value];
    }
    NoTensors(names, reader.Rest(), reader.catalogBytes, reader.limits, tensors);
    r := Ok(tensors);
  }

  lemma {:induction false} TensorStep(n: nat, seen: set<seq<byte>>, bs: seq<byte>, charged: nat, limits: Limits, done: seq<TensorInfo>)
    requires n > 0
    ensures
      var p := TakeTensor(seen, bs, charged, limits);
      After(done, TakeTensors(n, seen, bs, charged, limits))
      == if p.Stuck? then Stuck
         else After(done + [p.value], TakeTensors(n - 1, seen + {p.value.name}, p.rest, p.charged, limits))
  {
    hide TakeTensor;
    var p := TakeTensor(seen, bs, charged, limits);
    if p.Took? && TakeTensors(n - 1, seen + {p.value.name}, p.rest, p.charged, limits).Took? {
      Associate(done, [p.value], TakeTensors(n - 1, seen + {p.value.name}, p.rest, p.charged, limits).value);
    }
  }

  lemma NoTensors(seen: set<seq<byte>>, bs: seq<byte>, charged: nat, limits: Limits, done: seq<TensorInfo>)
    ensures After(done, TakeTensors(0, seen, bs, charged, limits)) == Took(done, bs, charged)
  {
    assert done + [] == done;
  }

  // ----- payload spans -----

  datatype Span = Span(begin: nat, end: nat, name: seq<byte>)

  function SpanOf(c: Catalog, t: TensorInfo): Span {
    Span(Begin(c, t), End(c, t), t.name)
  }

  /** Each payload is aligned and ends inside the file; the sums do not wrap around. */
  method CollectSpans(c: Catalog, fileSize: nat) returns (r: Result<seq<Span>>)
    requires c.alignment > 0 && c.tensorDataOffset <= fileSize <= U64_MAX
    ensures r.Ok? <==> forall i :: 0 <= i < |c.tensors| ==>
              c.tensors[i].offset % c.alignment == 0 && End(c, c.tensors[i]) <= fileSize
    ensures r.Ok? ==> |r.value| == |c.tensors| && forall i :: 0 <= i < |c.tensors| ==> r.value[i] == SpanOf(c, c.tensors[i])
  {
    var spans := [];
    for index := 0 to |c.tensors|
      invariant |spans| == index && forall i :: 0 <= i < index ==> spans[i] == SpanOf(c, c.tensors[i])
      invariant forall i :: 0 <= i < index ==>
        c.tensors[i].offset % c.alignment == 0 && End(c, c.tensors[i]) <= fileSize
    {
      var tensor := c.tensors[index];
      if tensor.offset % c.alignment != 0 {
        return Err;
      }
      var begin := CheckedAdd(c.tensorDataOffset, tensor.offset, U64_MAX);
      if begin.None? {
        return Err;
      }
      var end := CheckedAdd(begin.value, tensor.byteSize, U64_MAX);
      if end.None? || end.value > fileSize {
        return Err;
      }
      spans := spans + [Span(begin.value, end.value, tensor.name)];
    }
    r := Ok(spans);
  }

  ghost predicate SortedByBegin(spans: seq<Span>) {
    forall i, j :: 0 <= i < j < |spans| ==> spans[i].begin <= spans[j].begin
  }

  /** `std::sort` by begin, as an insertion sort. */
  method SortSpans(spans: seq<Span>) returns (sorted: seq<Span>)
    ensures SortedByBegin(sorted)
    ensures multiset(sorted) == multiset(spans)
  {
    sorted := [];
    for index := 0 to |spans|
      invariant SortedByBegin(sorted)
      invariant multiset(sorted) == multiset(spans[..index])
    {
      assert spans[..index + 1] == spans[..index] + [spans[index]];
      sorted := InsertSpan(sorted, spans[index]);
    }
    assert spans[..|spans|] == spans;
  }

  method InsertSpan(sorted: seq<Span>, span: Span) returns (r: seq<Span>)
    requires SortedByBegin(sorted)
    ensures SortedByBegin(r)
    ensures multiset(r) == multiset(sorted) + multiset{span}
  {
    hide SortedByBegin;
    var at := |sorted|;
    while at > 0 && span.begin < sorted[at - 1].begin
      invariant 0 <= at <= |sorted|
      invariant forall i :: at <= i < |sorted| ==> span.begin < sorted[i].begin
    {
      at := at - 1;
    }
    r := sorted[..at] + [span] + sorted[at..];
    InsertedSorted(sorted, span, at);
    InsertedElements(sorted, span, at);
  }

  lemma {:induction false} InsertedElements(sorted: seq<Span>, span: Span, at: nat)
    requires at <= |sorted|
    ensures multiset(sorted[..at] + [span] + sorted[at..]) == multiset(sorted) + multiset{span}
  {
    hide SortedByBegin;
    assert sorted == sorted[..at] + sorted[at..];
  }

  lemma {:induction false} InsertedSorted(sorted: seq<Span>, span: Span, at: nat)
    requires SortedByBegin(sorted) && at <= |sorted|
    requires forall i :: at <= i < |sorted| ==> span.begin < sorted[i].begin
    requires at > 0 ==> sorted[at - 1].begin <= span.begin
    ensures SortedByBegin(sorted[..at] + [span] + sorted[at..])
  {
    var r := sorted[..at] + [span] + sorted[at..];
    forall i, j | 0 <= i < j < |r|
      ensures r[i].begin <= r[j].begin
    {
      assert r[i] == if i < at then sorted[i] else if i == at then span else sorted[i - 1];
      assert r[j] == if j < at then sorted[j] else if j == at then span else sorted[j - 1];
    }
  }

  /** No span begins before its predecessor ends. */
  method NoneOverlap(spans: seq<Span>) returns (ok: bool)
    ensures ok <==> forall i :: 0 < i < |spans| ==> spans[i - 1].end <= spans[i].begin
  {
    var index := 1;
    while index < |spans|
      invariant forall i :: 0 < i < index && i < |spans| ==> spans[i - 1].end <= spans[i].begin
    {
      if spans[index].begin < spans[index - 1].end {
        return false;
      }
      index := index + 1;
    }
    ok := true;
  }

  /** Checking neighbours in begin order is checking every pair. */
  lemma {:induction false} NeighboursSuffice(spans: seq<Span>, sorted: seq<Span>, i: nat, j: nat)
    requires multiset(sorted) == multiset(spans) && SortedByBegin(sorted)
    requires forall k :: 0 < k < |sorted| ==> sorted[k - 1].end <= sorted[k].begin
    requires i < |spans| && j < |spans| && spans[i] != spans[j]
    ensures spans[i].end <= spans[j].begin || spans[j].end <= spans[i].begin
  {
    assert spans[i] in multiset(sorted) && spans[j] in multiset(sorted);
    var p :| 0 <= p < |sorted| && sorted[p] == spans[i];
    var q :| 0 <= q < |sorted| && sorted[q] == spans[j];
    if p < q {
      assert sorted[p + 1 - 1].end <= sorted[p + 1].begin;
    } else {
      assert sorted[q + 1 - 1].end <= sorted[q + 1].begin;
    }
  }

  /** ... and every overlapping pair of nonempty spans shows up between some neighbours. */
  lemma {:induction false} OverlapFound(spans: seq<Span>, sorted: seq<Span>, k: nat)
    requires multiset(sorted) == multiset(spans)
    requires 0 < k < |sorted| && sorted[k].begin < sorted[k - 1].end && SortedByBegin(sorted)
    requires forall m :: 0 <= m < |spans| ==> spans[m].begin < spans[m].end
    ensures exists i, j :: 0 <= i < |spans| && 0 <= j < |spans|
              && spans[i].begin < spans[j].end && spans[j].begin < spans[i].end
              && spans[i] == sorted[k - 1] && spans[j] == sorted[k]
  {
    assert sorted[k - 1] in multiset(spans) && sorted[k] in multiset(spans);
    var i :| 0 <= i < |spans| && spans[i] == sorted[k - 1];
    var j :| 0 <= j < |spans| && spans[j] == sorted[k];
    assert spans[j].begin < spans[j].end;
  }

  // ----- the whole reader -----

  method CheckSpans(c: Catalog, fileSize: nat) returns (ok: bool)
    requires c.alignment > 0 && c.tensorDataOffset <= fileSize <= U64_MAX
    requires c.tensorDataOffset % c.alignment == 0
    requires forall i, j :: 0 <= i < j < |c.tensors| ==> c.tensors[i].name != c.tensors[j].name
    requires forall i :: 0 <= i < |c.tensors| ==> c.tensors[i].byteSize > 0
    ensures ok <==> PayloadsSafe(c, fileSize)
  {
    var spans := CollectSpans(c, fileSize);
    if spans.Err? {
      return false;
    }
    var sorted := SortSpans(spans.value);
    ok := NoneOverlap(sorted);
    SpansDecide(c, fileSize, spans.value, sorted, ok);
  }

  lemma {:induction false} SpansDecide(c: Catalog, fileSize: nat, spans: seq<Span>, sorted: seq<Span>, ok: bool)
    requires c.alignment > 0 && c.tensorDataOffset % c.alignment == 0
    requires forall i, j :: 0 <= i < j < |c.tensors| ==> c.tensors[i].name != c.tensors[j].name
    requires forall i :: 0 <= i < |c.tensors| ==> c.tensors[i].byteSize > 0
    requires forall i :: 0 <= i < |c.tensors| ==>
      c.tensors[i].offset % c.alignment == 0 && End(c, c.tensors[i]) <= fileSize
    requires |spans| == |c.tensors| && forall i :: 0 <= i < |c.tensors| ==> spans[i] == SpanOf(c, c.tensors[i])
    requires multiset(sorted) == multiset(spans) && SortedByBegin(sorted)
    requires ok <==> forall i :: 0 < i < |sorted| ==> sorted[i - 1].end <= sorted[i].begin
    ensures ok <==> PayloadsSafe(c, fileSize)
  {
    hide SortedByBegin;
    if ok {
      forall i, j | 0 <= i < |c.tensors| && 0 <= j < |c.tensors| && i != j
        ensures c.tensors[i].name != c.tensors[j].name
        ensures End(c, c.tensors[i]) <= Begin(c, c.tensors[j]) || End(c, c.tensors[j]) <= Begin(c, c.tensors[i])
      {
        assert c.tensors[i].name != c.tensors[j].name;
        NeighboursSuffice(spans, sorted, i, j);
      }
    } else {
      var k :| 0 < k < |sorted| && sorted[k - 1].end > sorted[k].begin;
      var i, j := OverlappingPair(spans, sorted, k);
      assert End(c, c.tensors[i]) > Begin(c, c.tensors[j]) && End(c, c.tensors[j]) > Begin(c, c.tensors[i]);
    }
  }

  /** Overlapping neighbours come from two different spans that overlap. */
  lemma {:induction false} OverlappingPair(spans: seq<Span>, sorted: seq<Span>, k: nat) returns (i: nat, j: nat)
    requires multiset(sorted) == multiset(spans) && SortedByBegin(sorted)
    requires 0 < k < |sorted| && sorted[k - 1].end > sorted[k].begin
    requires forall m :: 0 <= m < |spans| ==> spans[m].begin < spans[m].end
    requires forall m, n :: 0 <= m < n < |spans| ==> spans[m].name != spans[n].name
    ensures i < |spans| && j < |spans| && i != j
    ensures spans[i].begin < spans[j].end && spans[j].begin < spans[i].end
  {
    hide SortedByBegin;
    OverlapFound(spans, sorted, k);
    i, j :| 0 <= i < |spans| && 0 <= j < |spans|
            && spans[i].begin < spans[j].end && spans[j].begin < spans[i].end
            && spans[i] == sorted[k - 1] && spans[j] == sorted[k];
    if i == j {
      TwiceInSorted(spans, sorted, k, i);
    }
  }

  /** Spans of different tensors carry different names, so no span is listed twice. */
  lemma {:induction false} TwiceInSorted(spans: seq<Span>, sorted: seq<Span>, k: nat, i: nat)
    requires multiset(sorted) == multiset(spans) && 0 < k < |sorted| && i < |spans|
    requires sorted[k - 1] == sorted[k] == spans[i]
    ensures exists j, m :: 0 <= j < m < |spans| && spans[j].name == spans[m].name
  {
    var s := spans[i];
    assert sorted == sorted[..k - 1] + [s] + [s] + sorted[k + 1..];
    assert multiset(sorted)[s] >= 2;
    if forall j, m :: 0 <= j < m < |spans| ==> spans[j] != spans[m] {
      OnceOnly(spans, i);
      assert false;
    }
  }

  lemma {:induction false} OnceOnly(spans: seq<Span>, i: nat)
    requires i < |spans| && forall j, m :: 0 <= j < m < |spans| ==> spans[j] != spans[m]
    ensures multiset(spans)[spans[i]] == 1
  {
    assert spans == spans[..i] + [spans[i]] + spans[i + 1..];
    assert spans[i] !in spans[..i] && spans[i] !in spans[i + 1..];
  }

  /** Magic, version and the two counts. */
  method ReadCounts(reader: Reader) returns (r: Result<(nat, nat)>)
    requires reader.Valid()
    modifies reader`position
    ensures reader.Valid()
    ensures r.Ok? <==> TakeCounts(old(reader.Rest())).Got?
    ensures r.Ok? ==> r.value == TakeCounts(old(reader.Rest())).value && reader.Rest() == TakeCounts(old(reader.Rest())).rest
  {
    hide FromLittleEndian;
    ghost var start := reader.Rest();
    var magic := ReadMagic(reader);
    if !magic {
      return Err;
    }
    var version := reader.ReadUnsigned(4);
    if version.Err? || version.value != 3 {
      return Err;
    }
    var tensorCount := reader.ReadUnsigned(8);
    if tensorCount.Err? {
      return Err;
    }
    var metadataCount := reader.ReadUnsigned(8);
    if metadataCount.Err? {
      return Err;
    }
    r := Ok((tensorCount.value, metadataCount.value));
  }

  method ReadMagic(reader: Reader) returns (ok: bool)
    requires reader.Valid()
    modifies reader`position
    ensures reader.Valid()
    ensures ok <==> MAGIC <= old(reader.Rest())
    ensures ok ==> reader.Rest() == old(reader.Rest())[4..]
  {
    ghost var start := reader.Rest();
    for i := 0 to 4
      invariant reader.Valid() && i <= |start| && reader.Rest() == start[i..] && start[..i] == MAGIC[..i]
    {
      OneByte(reader.Rest());
      var letter := reader.ReadUnsigned(1);
      if letter.Err? || letter.value != MAGIC[i] {
        return false;
      }
      assert start[..i + 1] == start[..i] + [start[i]] && MAGIC[..i + 1] == MAGIC[..i] + [MAGIC[i]];
    }
    assert MAGIC[..4] == MAGIC;
    ok := true;
  }

  lemma OneByte(bs: seq<byte>)
    ensures ParseNat(1, bs) == if |bs| < 1 then Fail else Got(bs[0], bs[1..])
  {
    if |bs| >= 1 {
      assert bs[..1][1..] == [];
      assert FromLittleEndian(bs[..1]) == bs[0];
    }
  }
}
