/** What the GGUF reader makes of a file, as functions of the bytes that remain and the storage
    charged so far; and what well-formed metadata and descriptors are charged. */
module GgufParse {
  import opened Prelude
  import opened Gguf
  import opened Parsing

  datatype Taken<+T> = Stuck | Took(value: T, rest: seq<byte>, charged: nat)

  // ----- strings and scalars -----

  function TakeString(bs: seq<byte>, charged: nat, limits: Limits): Taken<seq<byte>> {
    match ParseNat(8, bs)
    case Fail => Stuck
    case Got(n, rest) =>
      if n > limits.maxStringBytes || n > |rest| || charged + n > limits.maxCatalogBytes then Stuck
      else Took(rest[..n], rest[n..], charged + n)
  }

  function TakeScalar(t: MetadataType, bs: seq<byte>, charged: nat, limits: Limits): Taken<MetadataValue> {
    if t == TArray then Stuck
    else if t == TString then
      match TakeString(bs, charged, limits)
      case Stuck => Stuck
      case Took(s, rest, c) => Took(Str(s), rest, c)
    else if charged + Width(t) > limits.maxCatalogBytes || |bs| < Width(t) then Stuck
    else
      FromLittleEndianBound(bs[..Width(t)]);
      match ScalarOf(t, FromLittleEndian(bs[..Width(t)]))
      case None => Stuck
      case Some(v) => Took(v, bs[Width(t)..], charged + Width(t))
  }

  // ----- values -----

  function TakeElements(t: MetadataType, n: nat, bs: seq<byte>, charged: nat, limits: Limits): Taken<seq<MetadataValue>> {
    if n == 0 then Took([], bs, charged) else
    match TakeScalar(t, bs, charged, limits)
    case Stuck => Stuck
    case Took(v, rest, c) =>
      match TakeElements(t, n - 1, rest, c, limits)
      case Stuck => Stuck
      case Took(vs, rest', c') => Took([v] + vs, rest', c')
  }

  function TakeArray(bs: seq<byte>, charged: nat, limits: Limits): Taken<MetadataValue> {
    match ParseNat(4, bs)
    case Fail => Stuck
    case Got(code, rest) =>
      if code > 12 || code == 9 then Stuck else
      match ParseNat(8, rest)
      case Fail => Stuck
      case Got(n, rest') =>
        if n > limits.maxArrayElements || charged + n * limits.valueBytes > limits.maxCatalogBytes then Stuck else
        match TakeElements(TypeOfCode(code).value, n, rest', charged + n * limits.valueBytes, limits)
        case Stuck => Stuck
        case Took(vs, rest'', c) => Took(Arr(TypeOfCode(code).value, vs), rest'', c)
  }

  function TakeValue(t: MetadataType, bs: seq<byte>, charged: nat, limits: Limits): Taken<MetadataValue> {
    if t == TArray then TakeArray(bs, charged, limits) else TakeScalar(t, bs, charged, limits)
  }

  // ----- metadata -----

  ghost function TakeEntry(bs: seq<byte>, charged: nat, limits: Limits): Taken<Entry> {
    match TakeString(bs, charged, limits)
    case Stuck => Stuck
    case Took(key, rest, c) =>
      if !ValidKey(key) then Stuck else
      match ParseNat(4, rest)
      case Fail => Stuck
      case Got(code, rest') =>
        if code > 12 then Stuck else
        match TakeValue(TypeOfCode(code).value, rest', c, limits)
        case Stuck => Stuck
        case Took(v, rest'', c') => Took(Entry(key, v), rest'', c')
  }

  /** Entries whose keys are new, each also to those after it. */
  ghost function TakeEntries(n: nat, seen: set<seq<byte>>, bs: seq<byte>, charged: nat, limits: Limits): Taken<seq<Entry>>
    decreases n
  {
    if n == 0 then Took([], bs, charged) else
    match TakeEntry(bs, charged, limits)
    case Stuck => Stuck
    case Took(e, rest, c) =>
      if e.key in seen then Stuck else
      match TakeEntries(n - 1, seen + {e.key}, rest, c, limits)
      case Stuck => Stuck
      case Took(es, rest', c') => Took([e] + es, rest', c')
  }

  // ----- tensor descriptors -----

  function TakeDimensions(n: nat, bs: seq<byte>): Parsed<seq<nat>> {
    if n == 0 then Got([], bs) else
    match ParseNat(8, bs)
    case Fail => Fail
    case Got(d, rest) =>
      match TakeDimensions(n - 1, rest)
      case Fail => Fail
      case Got(ds, rest') => Got([d] + ds, rest')
  }

  /** The exact byte size, where it is one. */
  ghost function ByteSize(kind: nat, dimensions: seq<nat>): Option<nat> {
    if ElementSize(kind) > 0 && (forall i :: 0 <= i < |dimensions| ==> dimensions[i] > 0)
       && Product(dimensions) * ElementSize(kind) <= U64_MAX
    then Some(Product(dimensions) * ElementSize(kind)) else None
  }

  ghost function TakeTensor(seen: set<seq<byte>>, bs: seq<byte>, charged: nat, limits: Limits): Taken<TensorInfo> {
    match TakeString(bs, charged, limits)
    case Stuck => Stuck
    case Took(name, rest, c) =>
      if name in seen then Stuck else
      match ParseNat(4, rest)
      case Fail => Stuck
      case Got(rank, rest') =>
        if rank == 0 || rank > limits.maxRank || c + 8 * rank > limits.maxCatalogBytes then Stuck
        else TakeShape(name, rank, rest', c + 8 * rank)
  }

  ghost function TakeShape(name: seq<byte>, rank: nat, bs: seq<byte>, charged: nat): Taken<TensorInfo> {
    match TakeDimensions(rank, bs)
    case Fail => Stuck
    case Got(dimensions, rest) =>
      match ParseNat(4, rest)
      case Fail => Stuck
      case Got(kind, rest') =>
        match ParseNat(8, rest')
        case Fail => Stuck
        case Got(offset, rest'') =>
          match ByteSize(kind, dimensions)
          case None => Stuck
          case Some(size) => Took(TensorInfo(name, dimensions, kind, offset, size), rest'', charged)
  }

  ghost function TakeTensors(n: nat, seen: set<seq<byte>>, bs: seq<byte>, charged: nat, limits: Limits): Taken<seq<TensorInfo>>
    decreases n
  {
    if n == 0 then Took([], bs, charged) else
    match TakeTensor(seen, bs, charged, limits)
    case Stuck => Stuck
    case Took(t, rest, c) =>
      match TakeTensors(n - 1, seen + {t.name}, rest, c, limits)
      case Stuck => Stuck
      case Took(ts, rest', c') => Took([t] + ts, rest', c')
  }

  // ----- the file -----

  /** The counts of tensors and entries, behind the magic and the version. */
  function TakeCounts(bs: seq<byte>): Parsed<(nat, nat)> {
    if !(MAGIC <= bs) then Fail else
    match ParseNat(4, bs[4..])
    case Fail => Fail
    case Got(version, rest) =>
      if version != 3 then Fail else
      match ParseNat(8, rest)
      case Fail => Fail
      case Got(tensors, rest') =>
        match ParseNat(8, rest')
        case Fail => Fail
        case Got(entries, rest'') => Got((tensors, entries), rest'')
  }

  // ----- charges -----

  function ScalarCharge(v: MetadataValue): nat {
    if v.Str? then |v.text| else Width(v.Type())
  }

  function ElementsCharge(values: seq<MetadataValue>): nat {
    if |values| == 0 then 0 else ScalarCharge(values[0]) + ElementsCharge(values[1..])
  }

  function ValueCharge(v: MetadataValue, limits: Limits): nat {
    if v.Arr? then |v.values| * limits.valueBytes + ElementsCharge(v.values) else ScalarCharge(v)
  }

  function EntriesCharge(entries: seq<Entry>, limits: Limits): nat {
    if |entries| == 0 then 0
    else |entries[0].key| + ValueCharge(entries[0].value, limits) + EntriesCharge(entries[1..], limits)
  }

  function TensorCharge(t: TensorInfo): nat { |t.name| + 8 * |t.dimensions| }

  function TensorsCharge(ts: seq<TensorInfo>): nat {
    if |ts| == 0 then 0 else TensorCharge(ts[0]) + TensorsCharge(ts[1..])
  }
}
