/** The C++ side: selecting, sorting and serializing the tokenizer metadata of a catalog. */
module SpecWriter {
  import opened Prelude
  import opened Gguf
  import opened WireFormat
  import LexOrder
  import Utf8

  /** The keys that are handed over start with this. */
  const PREFIX: seq<byte> := Utf8.Encode("tokenizer.")

  /** What the C++ value type guarantees; it does not rule out arrays inside arrays. */
  predicate Typed(v: MetadataValue) {
    if v.Arr? then forall i :: 0 <= i < |v.values| ==> v.values[i].Arr? || FitsType(v.values[i])
    else FitsType(v)
  }

  // ----- appending -----

  /** Pushes the low `width` bytes of a value, least significant first. */
  method AppendInteger(bytes: seq<byte>, value: nat, width: nat) returns (r: seq<byte>)
    ensures r == bytes + LittleEndian(value, width)
  {
    r := bytes;
    var raw := value;
    for index := 0 to width
      invariant r + LittleEndian(raw, width - index) == bytes + LittleEndian(value, width)
    {
      Associate(r, [raw % 256], LittleEndian(raw / 256, width - index - 1));
      r := r + [raw % 256];
      raw := raw / 256;
    }
    assert r + [] == r;
  }

  method AppendText(bytes: seq<byte>, s: seq<byte>) returns (r: Result<seq<byte>>)
    ensures r.Ok? <==> |s| <= U32_MAX
    ensures r.Ok? ==> r.value == bytes + PrintText(s)
  {
    hide LittleEndian;
    if |s| > U32_MAX {
      return Err;
    }
    var sized := AppendInteger(bytes, |s|, 4);
    Associate(bytes, LittleEndian(|s|, 4), s);
    r := Ok(sized + s);
  }

  method AppendScalar(bytes: seq<byte>, t: MetadataType, v: MetadataValue) returns (r: Result<seq<byte>>)
    requires v.Arr? || FitsType(v)
    ensures r.Ok? <==> WritableScalar(t, v)
    ensures r.Ok? ==> FitsType(v) && r.value == bytes + PrintScalar(v)
  {
    hide LittleEndian, Pow256;
    if v.Arr? || v.Type() != t {
      return Err;
    }
    if v.Str? {
      r := AppendText(bytes, v.text);
      return;
    }
    var out;
    match v {
      case U8(n) => out := AppendInteger(bytes, n, 1);
      case I8(i) => out := AppendInteger(bytes, ToUnsigned(i, 1), 1);
      case U16(n) => out := AppendInteger(bytes, n, 2);
      case I16(i) => out := AppendInteger(bytes, ToUnsigned(i, 2), 2);
      case U32(n) => out := AppendInteger(bytes, n, 4);
      case I32(i) => out := AppendInteger(bytes, ToUnsigned(i, 4), 4);
      case F32(b) => out := AppendInteger(bytes, b, 4);
      case Bool(b) => out := AppendInteger(bytes, if b then 1 else 0, 1);
      case U64(n) => out := AppendInteger(bytes, n, 8);
      case I64(i) => out := AppendInteger(bytes, ToUnsigned(i, 8), 8);
      case F64(b) => out := AppendInteger(bytes, b, 8);
    }
    r := Ok(out);
  }

  method AppendElements(bytes: seq<byte>, t: MetadataType, values: seq<MetadataValue>) returns (r: Result<seq<byte>>)
    requires forall i :: 0 <= i < |values| ==> values[i].Arr? || FitsType(values[i])
    ensures r.Ok? <==> forall i :: 0 <= i < |values| ==> WritableScalar(t, values[i])
    ensures r.Ok? ==> AllFit(values) && r.value == bytes + PrintElements(values)
  {
    hide FitsType, PrintScalar, WritableScalar;
    var out := bytes;
    for i := 0 to |values|
      invariant forall j :: 0 <= j < i ==> WritableScalar(t, values[j]) && FitsType(values[j])
      invariant AllFit(values[..i]) && out == bytes + PrintElements(values[..i])
    {
      var next := AppendScalar(out, t, values[i]);
      if next.Err? {
        return Err;
      }
      assert values[..i + 1] == values[..i] + [values[i]];
      PrintOneMore(values[..i], values[i]);
      Associate(bytes, PrintElements(values[..i]), PrintScalar(values[i]));
      out := next.value;
    }
    assert values[..|values|] == values;
    r := Ok(out);
  }

  lemma {:induction false} PrintOneMore(values: seq<MetadataValue>, v: MetadataValue)
    requires AllFit(values) && FitsType(v)
    ensures AllFit(values + [v]) && PrintElements(values + [v]) == PrintElements(values) + PrintScalar(v)
  {
    hide FitsType, PrintScalar;
    if |values| == 0 {
      assert values + [v] == [v];
    } else {
      PrintOneMore(values[1..], v);
      assert (values + [v])[1..] == values[1..] + [v];
      Associate(PrintScalar(values[0]), PrintElements(values[1..]), PrintScalar(v));
    }
  }

  method AppendValue(bytes: seq<byte>, v: MetadataValue) returns (r: Result<seq<byte>>)
    requires Typed(v)
    ensures r.Ok? <==> WritableValue(v)
    ensures r.Ok? ==> Representable(v) && r.value == bytes + PrintValue(v)
  {
    hide LittleEndian, FitsType, PrintScalar, PrintElements, WritableScalar, AllFit;
    var out := AppendInteger(bytes, v.Type().Code(), 4);
    if !v.Arr? {
      r := AppendScalar(out, v.Type(), v);
      return;
    }
    out := AppendInteger(out, v.elementType.Code(), 4);
    out := AppendInteger(out, |v.values|, 8);
    r := AppendElements(out, v.elementType, v.values);
  }

  // ----- selecting and sorting -----

  predicate Selected(key: seq<byte>) { PREFIX <= key }

  /** The selected part of the metadata, by ascending key. */
  ghost predicate SortedEntries(metadata: map<seq<byte>, MetadataValue>, entries: seq<Entry>) {
    && Ascending(None, entries)
    && (forall e :: e in entries ==> e.key in metadata && Selected(e.key) && e.value == metadata[e.key])
    && (forall key :: key in metadata && Selected(key) ==> Entry(key, metadata[key]) in entries)
  }

  /** That part of the metadata: it exists and is unique. */
  ghost function Selection(metadata: map<seq<byte>, MetadataValue>): (entries: seq<Entry>)
    ensures SortedEntries(metadata, entries)
  {
    SelectionExists(metadata);
    var entries :| SortedEntries(metadata, entries);
    entries
  }

  lemma {:induction false} SelectionExists(metadata: map<seq<byte>, MetadataValue>)
    ensures exists entries :: SortedEntries(metadata, entries)
    decreases |metadata|
  {
    hide Selected, LexOrder.Less;
    if metadata == map[] {
      assert SortedEntries(metadata, []);
    } else {
      var key :| key in metadata;
      var rest := metadata - {key};
      assert |rest.Keys| < |metadata.Keys| by { assert rest.Keys == metadata.Keys - {key}; }
      SelectionExists(rest);
      var entries :| SortedEntries(rest, entries);
      if Selected(key) {
        InsertAscending(None, entries, Entry(key, metadata[key]));
        assert SortedEntries(metadata, Insert(entries, Entry(key, metadata[key])));
      } else {
        assert SortedEntries(metadata, entries);
      }
    }
  }

  function Insert(entries: seq<Entry>, e: Entry): (r: seq<Entry>)
    ensures forall x :: x in r <==> x in entries || x == e
  {
    if |entries| == 0 then [e]
    else if LexOrder.Less(e.key, entries[0].key) then [e] + entries
    else
      assert entries == [entries[0]] + entries[1..];
      [entries[0]] + Insert(entries[1..], e)
  }

  lemma {:induction false} InsertAscending(previous: Option<seq<byte>>, entries: seq<Entry>, e: Entry)
    requires Ascending(previous, entries) && (previous.Some? ==> LexOrder.Less(previous.value, e.key))
    requires forall x :: x in entries ==> x.key != e.key
    ensures Ascending(previous, Insert(entries, e))
    decreases |entries|
  {
    hide LexOrder.Less;
    if |entries| == 0 {
      assert [e][1..] == [];
    } else if LexOrder.Less(e.key, entries[0].key) {
      assert ([e] + entries)[1..] == entries;
    } else {
      LexOrder.Total(e.key, entries[0].key);
      InsertAscending(Some(entries[0].key), entries[1..], e);
      var r := Insert(entries, e);
      assert r[0] == entries[0] && r[1..] == Insert(entries[1..], e);
    }
  }

  method CollectEntries(metadata: map<seq<byte>, MetadataValue>) returns (entries: seq<Entry>)
    ensures entries == Selection(metadata)
  {
    hide Selected, LexOrder.Less;
    entries := [];
    var remaining := metadata.Keys;
    while remaining != {}
      invariant remaining <= metadata.Keys && Ascending(None, entries)
      invariant forall e :: e in entries ==>
        e.key in metadata && e.key !in remaining && Selected(e.key) && e.value == metadata[e.key]
      invariant forall key :: key in metadata && key !in remaining && Selected(key) ==> Entry(key, metadata[key]) in entries
      decreases |remaining|
    {
      var key :| key in remaining;
      if Selected(key) {
        InsertAscending(None, entries, Entry(key, metadata[key]));
        entries := Insert(entries, Entry(key, metadata[key]));
      }
      remaining := remaining - {key};
    }
    SortedUnique(metadata, entries, Selection(metadata));
  }

  /** Entries in ascending order with the same members are the same. */
  lemma {:induction false} SortedUnique(metadata: map<seq<byte>, MetadataValue>, a: seq<Entry>, b: seq<Entry>)
    requires SortedEntries(metadata, a) && SortedEntries(metadata, b)
    ensures a == b
  {
    AscendingUnique(None, a, None, b);
  }

  lemma {:induction false} AscendingAbove(key: seq<byte>, entries: seq<Entry>)
    requires Ascending(Some(key), entries)
    ensures forall e :: e in entries ==> LexOrder.Less(key, e.key)
    decreases |entries|
  {
    hide LexOrder.Less;
    if |entries| > 0 {
      AscendingAbove(entries[0].key, entries[1..]);
      forall e | e in entries
        ensures LexOrder.Less(key, e.key)
      {
        if e != entries[0] {
          assert e in entries[1..];
          LexOrder.Transitive(key, entries[0].key, e.key);
        }
      }
    }
  }

  lemma {:induction false} AscendingUnique(p: Option<seq<byte>>, a: seq<Entry>, q: Option<seq<byte>>, b: seq<Entry>)
    requires Ascending(p, a) && Ascending(q, b)
    requires forall e :: e in a <==> e in b
    ensures a == b
    decreases |a|
  {
    hide LexOrder.Less;
    assert |a| > 0 ==> a[0] in b;
    assert |b| > 0 ==> b[0] in a;
    if |a| > 0 {
      AscendingAbove(a[0].key, a[1..]);
      AscendingAbove(b[0].key, b[1..]);
      assert a == [a[0]] + a[1..] && b == [b[0]] + b[1..];
      if a[0] != b[0] {
        assert a[0] in b[1..] && b[0] in a[1..];
        LexOrder.Asymmetric(a[0].key, b[0].key);
        assert false;
      }
      LexOrder.Irreflexive(a[0].key);
      assert forall e :: e in a[1..] <==> e in a && e != a[0];
      assert forall e :: e in b[1..] <==> e in b && e != b[0];
      AscendingUnique(Some(a[0].key), a[1..], Some(b[0].key), b[1..]);
    }
  }

  // ----- the whole specification -----

  method AppendEntry(bytes: seq<byte>, e: Entry) returns (r: Result<seq<byte>>)
    requires Typed(e.value)
    ensures r.Ok? <==> Writable(e)
    ensures r.Ok? ==> Representable(e.value) && r.value == bytes + PrintEntry(e)
  {
    hide Typed, WritableValue, Representable, PrintText, PrintValue;
    r := AppendText(bytes, e.key);
    if r.Err? {
      return;
    }
    r := AppendValue(r.value, e.value);
    if r.Ok? {
      Associate(bytes, PrintText(e.key), PrintValue(e.value));
    }
  }

  /** What the writer accepts of the selected entries. */
  ghost predicate Serializable(entries: seq<Entry>) {
    0 < |entries| <= U32_MAX && forall i :: 0 <= i < |entries| ==> Writable(entries[i])
  }

  method SerializeTokenizerSpec(metadata: map<seq<byte>, MetadataValue>) returns (r: Result<seq<byte>>)
    requires forall key :: key in metadata ==> Typed(metadata[key])
    ensures r.Ok? <==> Serializable(Selection(metadata))
    ensures r.Ok? ==> AllRepresentable(Selection(metadata)) && r.value == PrintSpec(Selection(metadata))
  {
    hide Typed, Writable, Representable, PrintEntry, LittleEndian, Selected, Ascending;
    var sorted := CollectEntries(metadata);
    if |sorted| == 0 || |sorted| > U32_MAX {
      return Err;
    }
    var result := AppendInteger(HEADER, |sorted|, 4);
    ghost var front := result;
    for i := 0 to |sorted|
      invariant forall j :: 0 <= j < i ==> Writable(sorted[j]) && Representable(sorted[j].value)
      invariant AllRepresentable(sorted[..i]) && result == front + PrintEntries(sorted[..i])
    {
      assert sorted[i] in sorted;
      var next := AppendEntry(result, sorted[i]);
      if next.Err? {
        return Err;
      }
      assert sorted[..i + 1] == sorted[..i] + [sorted[i]];
      PrintOneMoreEntry(sorted[..i], sorted[i]);
      Associate(front, PrintEntries(sorted[..i]), PrintEntry(sorted[i]));
      result := next.value;
    }
    assert sorted[..|sorted|] == sorted;
    Associate(HEADER, LittleEndian(|sorted|, 4), PrintEntries(sorted));
    r := Ok(result);
  }

  lemma {:induction false} PrintOneMoreEntry(entries: seq<Entry>, e: Entry)
    requires AllRepresentable(entries) && Representable(e.value)
    ensures AllRepresentable(entries + [e]) && PrintEntries(entries + [e]) == PrintEntries(entries) + PrintEntry(e)
  {
    hide Representable, PrintEntry;
    if |entries| == 0 {
      assert entries + [e] == [e];
    } else {
      PrintOneMoreEntry(entries[1..], e);
      assert (entries + [e])[1..] == entries[1..] + [e];
      Associate(PrintEntry(entries[0]), PrintEntries(entries[1..]), PrintEntry(e));
    }
  }
}
