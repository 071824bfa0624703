/** Building a tokenizer from the metadata of a specification. */
module TokenizerBuilder {
  import opened Prelude
  import opened SpecMetadata
  import opened Segmentation
  import opened Tokenizer
  import opened Pretokenize
  import Utf8
  import ByteMaps
  import Bpe

  const TYPE_NORMAL: int := 1
  const TYPE_CONTROL: int := 3
  const TYPE_USER_DEFINED: int := 4

  // ----- tokens -----

  ghost predicate WellFormedTokens(tokens: seq<string>) {
    && 0 < |tokens| <= I32_MAX
    && (forall i :: 0 <= i < |tokens| ==> tokens[i] != "")
    && (forall i, j :: 0 <= i < j < |tokens| ==> tokens[i] != tokens[j])
  }

  method CheckTokens(tokens: seq<string>) returns (ok: bool)
    ensures ok <==> WellFormedTokens(tokens)
  {
    if |tokens| == 0 || |tokens| > I32_MAX {
      return false;
    }
    var seen: set<string> := {};
    for i := 0 to |tokens|
      invariant forall j :: 0 <= j < i ==> tokens[j] in seen && tokens[j] != ""
      invariant forall s :: s in seen ==> exists j :: 0 <= j < i && tokens[j] == s
      invariant forall j, k :: 0 <= j < k < i ==> tokens[j] != tokens[k]
    {
      if tokens[i] == "" || tokens[i] in seen {
        return false;
      }
      seen := seen + {tokens[i]};
    }
    ok := true;
  }

  method BuildVocabulary(tokens: seq<string>) returns (vocab: map<string, nat>)
    requires WellFormedTokens(tokens)
    ensures forall id: nat :: id < |tokens| ==> tokens[id] in vocab && vocab[tokens[id]] == id
    ensures forall s :: s in vocab ==> vocab[s] < |tokens| && tokens[vocab[s]] == s
  {
    vocab := map[];
    for id := 0 to |tokens|
      invariant forall j: nat :: j < id ==> tokens[j] in vocab && vocab[tokens[j]] == j
      invariant forall s :: s in vocab ==> vocab[s] < |tokens| && tokens[vocab[s]] == s
    {
      vocab := vocab[tokens[id] := id];
    }
  }

  // ----- merges -----

  /** Two nonempty parts without spaces, separated by one space. */
  ghost predicate IsMerge(merge: string, left: string, right: string) {
    merge == left + " " + right && left != "" && right != "" && ' ' !in left && ' ' !in right
  }

  function FirstSpace(s: string): (n: nat)
    ensures n <= |s| && ' ' !in s[..n] && (n < |s| ==> s[n] == ' ')
  {
    if |s| == 0 || s[0] == ' ' then 0
    else
      assert s[..1 + FirstSpace(s[1..])] == [s[0]] + s[1..][..FirstSpace(s[1..])];
      1 + FirstSpace(s[1..])
  }

  function SplitMerge(merge: string): (r: Option<(string, string)>)
    ensures r.Some? ==> IsMerge(merge, r.value.0, r.value.1)
  {
    var n := FirstSpace(merge);
    if n == 0 || n == |merge| then None
    else
      var left, right := merge[..n], merge[n + 1..];
      assert merge == left + " " + right;
      if right == "" || ' ' in right then None else Some((left, right))
  }

  lemma SplitComplete(merge: string, left: string, right: string)
    requires IsMerge(merge, left, right)
    ensures SplitMerge(merge) == Some((left, right))
  {
    var n := FirstSpace(merge);
    assert merge[|left|] == ' ';
    assert forall i :: 0 <= i < |left| ==> merge[i] == left[i];
    assert forall i :: 0 <= i < n ==> merge[i] == merge[..n][i];
    assert merge[..n] == left && merge[n + 1..] == right;
  }

  ghost predicate WellFormedMerges(merges: seq<string>) {
    && (forall i :: 0 <= i < |merges| ==> SplitMerge(merges[i]).Some?)
    && (forall i, j :: 0 <= i < j < |merges| ==> merges[i] != merges[j])
  }

  /** The rank of a pair is the place of its merge in the list. */
  ghost predicate RankTable(merges: seq<string>, table: Bpe.Merges) {
    && (forall i: nat :: i < |merges| ==>
          SplitMerge(merges[i]).Some? && SplitMerge(merges[i]).value in table
          && table[SplitMerge(merges[i]).value] == i)
    && (forall pair :: pair in table ==> table[pair] < |merges| && SplitMerge(merges[table[pair]]) == Some(pair))
  }

  method BuildMerges(merges: seq<string>) returns (r: Result<Bpe.Merges>)
    ensures r.Ok? <==> WellFormedMerges(merges)
    ensures r.Ok? ==> RankTable(merges, r.value)
  {
    hide SplitMerge, IsMerge;
    var table: Bpe.Merges := map[];
    for rank := 0 to |merges|
      invariant RankTable(merges[..rank], table) && WellFormedMerges(merges[..rank])
    {
      var pair := SplitMerge(merges[rank]);
      if pair.None? {
        return Err;
      }
      if pair.value in table {
        SamePair(merges[table[pair.value]], merges[rank]);
        return Err;
      }
      TableGrows(merges, rank, table);
      table := table[pair.value := rank];
    }
    assert merges[..|merges|] == merges;
    r := Ok(table);
  }

  lemma SamePair(a: string, b: string)
    requires SplitMerge(a).Some? && SplitMerge(a) == SplitMerge(b)
    ensures a == b
  {
  }

  lemma TableGrows(merges: seq<string>, rank: nat, table: Bpe.Merges)
    requires rank < |merges| && RankTable(merges[..rank], table) && WellFormedMerges(merges[..rank])
    requires SplitMerge(merges[rank]).Some? && SplitMerge(merges[rank]).value !in table
    ensures RankTable(merges[..rank + 1], table[SplitMerge(merges[rank]).value := rank])
    ensures WellFormedMerges(merges[..rank + 1])
  {
    hide SplitMerge, IsMerge;
    var more := merges[..rank + 1];
    assert more == merges[..rank] + [merges[rank]];
    forall i | 0 <= i < rank
      ensures more[i] == merges[..rank][i] && more[i] != more[rank]
    {
    }
  }

  // ----- protected tokens -----

  /** The ids the metadata names as special, and what their types add. */
  ghost predicate IsProtectedId(special: set<nat>, types: seq<int>, id: nat) {
    id in special || (id < |types| && (types[id] == TYPE_CONTROL || types[id] == TYPE_USER_DEFINED))
  }

  ghost predicate IsSkippedId(special: set<nat>, types: seq<int>, id: nat) {
    id in special || (id < |types| && types[id] == TYPE_CONTROL)
  }

  method ClassifyTypes(special: set<nat>, types: seq<int>) returns (protectedIds: set<nat>, skipIds: set<nat>)
    ensures forall id: nat :: id in protectedIds <==> IsProtectedId(special, types, id)
    ensures forall id: nat :: id in skipIds <==> IsSkippedId(special, types, id)
  {
    protectedIds, skipIds := special, special;
    for i := 0 to |types|
      invariant forall id: nat :: id in protectedIds <==> IsProtectedId(special, types[..i], id)
      invariant forall id: nat :: id in skipIds <==> IsSkippedId(special, types[..i], id)
    {
      if types[i] == TYPE_CONTROL || types[i] == TYPE_USER_DEFINED {
        protectedIds := protectedIds + {i};
      }
      if types[i] == TYPE_CONTROL {
        skipIds := skipIds + {i};
      }
    }
    assert types[..|types|] == types;
  }

  /** Inserts a token behind every one that is at least as long. */
  method InsertByLength(sorted: seq<Protected>, p: Protected) returns (r: seq<Protected>)
    requires LongestFirst(sorted)
    ensures LongestFirst(r) && Elements(r) == Elements(sorted) + {p}
  {
    hide Utf8.Encode;
    var at := |sorted|;
    while at > 0 && |Utf8.Encode(sorted[at - 1].text)| < |Utf8.Encode(p.text)|
      invariant 0 <= at <= |sorted|
      invariant forall i :: at <= i < |sorted| ==> |Utf8.Encode(sorted[i].text)| < |Utf8.Encode(p.text)|
    {
      at := at - 1;
    }
    r := sorted[..at] + [p] + sorted[at..];
    InsertedLongest(sorted, p, at);
    InsertedElements(sorted, p, at);
  }

  lemma InsertedLongest(sorted: seq<Protected>, p: Protected, at: nat)
    requires LongestFirst(sorted) && at <= |sorted|
    requires at > 0 ==> |Utf8.Encode(p.text)| <= |Utf8.Encode(sorted[at - 1].text)|
    requires forall i :: at <= i < |sorted| ==> |Utf8.Encode(sorted[i].text)| < |Utf8.Encode(p.text)|
    ensures LongestFirst(sorted[..at] + [p] + sorted[at..])
  {
    hide Utf8.Encode;
    var r := sorted[..at] + [p] + sorted[at..];
    forall i, j | 0 <= i < j < |r|
      ensures |Utf8.Encode(r[j].text)| <= |Utf8.Encode(r[i].text)|
    {
      assert r[i] == if i < at then sorted[i] else if i == at then p else sorted[i - 1];
      assert r[j] == if j < at then sorted[j] else if j == at then p else sorted[j - 1];
    }
  }

  lemma InsertedElements(sorted: seq<Protected>, p: Protected, at: nat)
    requires at <= |sorted|
    ensures Elements(sorted[..at] + [p] + sorted[at..]) == Elements(sorted) + {p}
  {
    assert sorted == sorted[..at] + sorted[at..];
  }

  /** The protected ids in whatever order the set yields them, then sorted. */
  method CollectProtected(ids: set<nat>, tokens: seq<string>) returns (r: seq<Protected>)
    requires forall id :: id in ids ==> id < |tokens|
    ensures LongestFirst(r)
    ensures forall p :: p in r <==> p.id in ids && p.text == tokens[p.id]
  {
    hide LongestFirst;
    r := [];
    assert LongestFirst(r) by { NoneLongest(); }
    var remaining := ids;
    while remaining != {}
      invariant remaining <= ids && LongestFirst(r)
      invariant forall p :: p in Elements(r) <==> p.id in ids - remaining && p.text == tokens[p.id]
      decreases |remaining|
    {
      var id :| id in remaining;
      r := InsertByLength(r, Protected(tokens[id], id));
      remaining := remaining - {id};
    }
  }

  lemma NoneLongest()
    ensures LongestFirst([])
  {
  }

  // ----- what is accepted -----

  predicate HeaderAccepted(m: Metadata, templateSupported: string -> bool) {
    && RequiredString(m, MODEL) == Ok("gpt2")
    && (RequiredString(m, PRE) == Ok("qwen2") || RequiredString(m, PRE) == Ok("qwen35"))
    && RequiredString(m, TEMPLATE).Ok? && RequiredString(m, TEMPLATE).value != ""
    && templateSupported(RequiredString(m, TEMPLATE).value)
  }

  ghost predicate ListsAccepted(m: Metadata) {
    && RequiredStringArray(m, TOKENS).Ok? && WellFormedTokens(RequiredStringArray(m, TOKENS).value)
    && OptionalI32Array(m, TOKEN_TYPE).Ok?
    && (OptionalI32Array(m, TOKEN_TYPE).value.Some? ==>
          |OptionalI32Array(m, TOKEN_TYPE).value.value| == |RequiredStringArray(m, TOKENS).value|)
    && RequiredStringArray(m, MERGES).Ok? && WellFormedMerges(RequiredStringArray(m, MERGES).value)
  }

  predicate IdAccepted(m: Metadata, key: string, count: nat) {
    OptionalU32(m, key).Ok? && (OptionalU32(m, key).value.Some? ==> OptionalU32(m, key).value.value < count)
  }

  predicate IdsAccepted(m: Metadata, count: nat) {
    && IdAccepted(m, BOS, count) && IdAccepted(m, EOS, count) && IdAccepted(m, EOT, count)
    && IdAccepted(m, PADDING, count)
  }

  ghost predicate Accepted(m: Metadata, templateSupported: string -> bool) {
    && HeaderAccepted(m, templateSupported) && ListsAccepted(m)
    && IdsAccepted(m, |RequiredStringArray(m, TOKENS).value|)
    && OptionalBool(m, ADD_BOS).Ok? && OptionalBool(m, ADD_EOS).Ok?
  }

  function Named(m: Metadata, key: string): (ids: set<nat>) {
    var id := OptionalU32(m, key);
    if id.Ok? && id.value.Some? then {id.value.value} else {}
  }

  ghost function SpecialIds(m: Metadata): set<nat> {
    Named(m, BOS) + Named(m, EOS) + Named(m, EOT) + Named(m, PADDING)
  }

  ghost function TypesOf(m: Metadata): seq<int>
    requires ListsAccepted(m)
  {
    var types := OptionalI32Array(m, TOKEN_TYPE).value;
    if types.Some? then types.value
    else seq(|RequiredStringArray(m, TOKENS).value|, _ => TYPE_NORMAL)
  }

  /** The tokenizer says what the metadata says. */
  ghost predicate Built(m: Metadata, k: Tokenizer)
    requires ListsAccepted(m)
  {
    && k.idToToken == RequiredStringArray(m, TOKENS).value
    && RankTable(RequiredStringArray(m, MERGES).value, k.merges)
    && (forall p :: p in k.protectedTokens <==>
          IsProtectedId(SpecialIds(m), TypesOf(m), p.id) && p.id < |k.idToToken| && p.text == k.idToToken[p.id])
    && (forall id :: id in k.skipSpecialIds <==> IsSkippedId(SpecialIds(m), TypesOf(m), id))
    && k.stopTokenIds == Named(m, EOS) + Named(m, EOT)
    && OptionalU32(m, BOS) == Ok(k.bos) && OptionalU32(m, EOS) == Ok(k.eos)
    && (k.addBos <==> OptionalBool(m, ADD_BOS) == Ok(Some(true)))
    && (k.addEos <==> OptionalBool(m, ADD_EOS) == Ok(Some(true)))
  }

  /** The ids named by the metadata, or rejection when one is out of range. */
  method CollectSpecial(m: Metadata, count: nat) returns (r: Result<set<nat>>)
    ensures r.Ok? <==> IdsAccepted(m, count)
    ensures r.Ok? ==> r.value == SpecialIds(m) && forall id :: id in r.value ==> id < count
  {
    var keys := [BOS, EOS, EOT, PADDING];
    assert keys[0] == BOS && keys[1] == EOS && keys[2] == EOT && keys[3] == PADDING;
    var ids: set<nat> := {};
    for i := 0 to |keys|
      invariant forall j :: 0 <= j < i ==> IdAccepted(m, keys[j], count)
      invariant ids == (if i > 0 then Named(m, BOS) else {}) + (if i > 1 then Named(m, EOS) else {})
                       + (if i > 2 then Named(m, EOT) else {}) + (if i > 3 then Named(m, PADDING) else {})
      invariant forall id :: id in ids ==> id < count
    {
      if !IdAccepted(m, keys[i], count) {
        return Err;
      }
      ids := ids + Named(m, keys[i]);
    }
    r := Ok(ids);
  }

  method ReadLists(m: Metadata) returns (r: Result<(seq<string>, seq<int>, Bpe.Merges)>)
    ensures r.Ok? <==> ListsAccepted(m)
    ensures r.Ok? ==> r.value.0 == RequiredStringArray(m, TOKENS).value && r.value.1 == TypesOf(m)
                      && RankTable(RequiredStringArray(m, MERGES).value, r.value.2)
  {
    hide WellFormedTokens, WellFormedMerges, RankTable;
    var tokens := RequiredStringArray(m, TOKENS);
    if tokens.Err? {
      return Err;
    }
    var ok := CheckTokens(tokens.value);
    var types := OptionalI32Array(m, TOKEN_TYPE);
    if !ok || types.Err? || (types.value.Some? && |types.value.value| != |tokens.value|) {
      return Err;
    }
    var merges := RequiredStringArray(m, MERGES);
    if merges.Err? {
      return Err;
    }
    var ranks := BuildMerges(merges.value);
    if ranks.Err? {
      return Err;
    }
    r := Ok((tokens.value, if types.value.Some? then types.value.value else seq(|tokens.value|, _ => TYPE_NORMAL), ranks.value));
  }

  method FromSpec(m: Metadata, templateSupported: string -> bool) returns (r: Result<Tokenizer>)
    ensures r.Ok? <==> Accepted(m, templateSupported)
    ensures r.Ok? ==> Valid(r.value) && Built(m, r.value)
  {
    hide ListsAccepted, IdsAccepted, HeaderAccepted, Valid, Built;
    if !HeaderAccepted(m, templateSupported) {
      return Err;
    }
    var lists := ReadLists(m);
    if lists.Err? {
      return Err;
    }
    var special := CollectSpecial(m, |lists.value.0|);
    if special.Err? || OptionalBool(m, ADD_BOS).Err? || OptionalBool(m, ADD_EOS).Err? {
      return Err;
    }
    var k := Assemble(m, lists.value.0, lists.value.1, lists.value.2, special.value);
    r := Ok(k);
  }

  /** What is known once every check has passed. */
  ghost predicate Gathered(m: Metadata, tokens: seq<string>, types: seq<int>, merges: Bpe.Merges, special: set<nat>) {
    && ListsAccepted(m) && tokens == RequiredStringArray(m, TOKENS).value && types == TypesOf(m)
    && RankTable(RequiredStringArray(m, MERGES).value, merges)
    && IdsAccepted(m, |tokens|) && special == SpecialIds(m) && (forall id :: id in special ==> id < |tokens|)
    && OptionalBool(m, ADD_BOS).Ok? && OptionalBool(m, ADD_EOS).Ok?
  }

  method Assemble(m: Metadata, tokens: seq<string>, types: seq<int>, merges: Bpe.Merges, special: set<nat>) returns (k: Tokenizer)
    requires Gathered(m, tokens, types, merges, special)
    ensures Valid(k) && Built(m, k)
  {
    hide RankTable, SplitMerge, LongestFirst, ByteMaps.ByteChar, ByteMaps.CharByte;
    var vocab := BuildVocabulary(tokens);
    var protectedIds, skipIds := ClassifyTypes(special, types);
    var protectedTokens := CollectProtected(protectedIds, tokens);
    var encoder, decoder := ByteMaps.BuildByteMaps();
    k := Tokenizer(vocab, tokens, merges, protectedTokens, skipIds, Named(m, EOS) + Named(m, EOT), encoder[..], decoder,
                   OptionalU32(m, BOS).value, OptionalU32(m, EOS).value,
                   OptionalBool(m, ADD_BOS) == Ok(Some(true)), OptionalBool(m, ADD_EOS) == Ok(Some(true)));
  }

  /** Two tokenizers built from one specification, whatever order the set of protected ids was
      read in, encode every text alike. */
  lemma BuiltAlike(m: Metadata, k: Tokenizer, l: Tokenizer, t: CharTables, text: string)
    requires ListsAccepted(m) && Valid(k) && Valid(l) && Built(m, k) && Built(m, l) && Sound(t)
    ensures Encodable(k, t, text) <==> Encodable(l, t, text)
    ensures Encodable(k, t, text) ==> Ids(k, Units(k, t, text)) == Ids(l, Units(l, t, text))
  {
    hide Sound, ByteTables, LongestFirst, RankTable, WellFormedTokens, WellFormedMerges, Segments, SegmentsFit;
    ProtectedDistinct(k);
    ProtectedDistinct(l);
    assert Elements(k.protectedTokens) == Elements(l.protectedTokens);
    SegmentsOrderFree(k.protectedTokens, l.protectedTokens, text);
    assert k.vocab == l.vocab by { SameVocabulary(k, l); }
    SameRanks(RequiredStringArray(m, MERGES).value, k.merges, l.merges);
    SameSegmentsUnits(k, l, t, Segments(k.protectedTokens, text));
  }

  lemma {:induction false} SamePiecesUnits(k: Tokenizer, l: Tokenizer, pieces: seq<string>)
    requires k.merges == l.merges
    ensures PiecesUnits(k, pieces) == PiecesUnits(l, pieces)
  {
    if |pieces| > 0 {
      SamePiecesUnits(k, l, pieces[1..]);
    }
  }

  lemma {:induction false} SameSegmentsUnits(k: Tokenizer, l: Tokenizer, t: CharTables, segments: seq<Segment>)
    requires k.merges == l.merges && Sound(t)
    ensures SegmentsUnits(k, t, segments) == SegmentsUnits(l, t, segments)
  {
    hide Sound;
    if |segments| > 0 {
      if segments[0].Gap? {
        SamePiecesUnits(k, l, Pieces(t, segments[0].text));
      }
      SameSegmentsUnits(k, l, t, segments[1..]);
    }
  }

  lemma SameVocabulary(k: Tokenizer, l: Tokenizer)
    requires InverseVocabulary(k) && InverseVocabulary(l) && k.idToToken == l.idToToken
    ensures k.vocab == l.vocab
  {
  }

  lemma SameRanks(merges: seq<string>, a: Bpe.Merges, b: Bpe.Merges)
    requires RankTable(merges, a) && RankTable(merges, b)
    ensures a == b
  {
    hide SplitMerge;
  }
}
