/** What a built tokenizer's settings mean for the caller: which ids stop, are protected or are skipped, and what
    encoding with markers and decoding without them do. */
module TokenizerMeaning {
  import opened Prelude
  import opened SpecMetadata
  import opened Segmentation
  import opened Pretokenize
  import opened Tokenizer
  import opened TokenizerBuilder
  import opened TokenizerRoundTrip
  import Utf8
  import Bpe

  // ----- ids the metadata names -----

  ghost predicate NamedAs(m: Metadata, key: string, id: nat) {
    key in m && m[key] == VU32(id)
  }

  /** The beginning, end, end-of-turn or padding token. */
  ghost predicate NamedAny(m: Metadata, id: nat) {
    || NamedAs(m, "tokenizer.ggml.bos_token_id", id) || NamedAs(m, "tokenizer.ggml.eos_token_id", id)
    || NamedAs(m, "tokenizer.ggml.eot_token_id", id) || NamedAs(m, "tokenizer.ggml.padding_token_id", id)
  }

  ghost predicate HasType(m: Metadata, id: nat, kind: int) {
    && "tokenizer.ggml.token_type" in m && m["tokenizer.ggml.token_type"].VI32Array?
    && id < |m["tokenizer.ggml.token_type"].ints| && m["tokenizer.ggml.token_type"].ints[id] == kind
  }

  lemma NamedIs(m: Metadata, key: string, id: nat)
    ensures id in Named(m, key) <==> NamedAs(m, key, id)
  {
  }

  lemma TypeIs(m: Metadata, id: nat, kind: int)
    requires ListsAccepted(m) && kind != 1
    ensures id < |TypesOf(m)| && TypesOf(m)[id] == kind <==> HasType(m, id, kind)
  {
    hide WellFormedTokens, WellFormedMerges;
  }

  /** Stop tokens are those that end a text or a turn. Named tokens and control tokens are protected
      and skipped; user-defined tokens are protected and kept. */
  lemma {:induction false} IdsMean(m: Metadata, k: Tokenizer, id: nat)
    requires ListsAccepted(m) && Built(m, k)
    ensures id in k.stopTokenIds <==>
              NamedAs(m, "tokenizer.ggml.eos_token_id", id) || NamedAs(m, "tokenizer.ggml.eot_token_id", id)
    ensures id in k.skipSpecialIds <==> NamedAny(m, id) || HasType(m, id, 3)
    ensures IsProtected(k, id) <==>
              id < |k.idToToken| && (NamedAny(m, id) || HasType(m, id, 3) || HasType(m, id, 4))
    ensures k.bos == Some(id) <==> NamedAs(m, "tokenizer.ggml.bos_token_id", id)
    ensures k.eos == Some(id) <==> NamedAs(m, "tokenizer.ggml.eos_token_id", id)
  {
    hide ListsAccepted, RankTable, NamedAs, HasType, Named, TypesOf;
    NamedIs(m, BOS, id);
    NamedIs(m, EOS, id);
    NamedIs(m, EOT, id);
    NamedIs(m, PADDING, id);
    TypeIs(m, id, 3);
    TypeIs(m, id, 4);
    MarkerIs(m, BOS, id);
    MarkerIs(m, EOS, id);
    if id < |k.idToToken| {
      assert Protected(k.idToToken[id], id) in k.protectedTokens <==>
             IsProtectedId(SpecialIds(m), TypesOf(m), id);
    }
  }

  lemma MarkerIs(m: Metadata, key: string, id: nat)
    ensures OptionalU32(m, key) == Ok(Some(id)) <==> NamedAs(m, key, id)
  {
  }

  /** An end token of the metadata stops generation, is cut out as a whole and is left out of decoded text. */
  lemma EndTokenStops(m: Metadata, templateSupported: string -> bool, k: Tokenizer, id: nat)
    requires Accepted(m, templateSupported) && Built(m, k)
    requires NamedAs(m, "tokenizer.ggml.eos_token_id", id) || NamedAs(m, "tokenizer.ggml.eot_token_id", id)
    ensures id in k.stopTokenIds && id in k.skipSpecialIds && id < |k.idToToken|
    ensures IsProtected(k, id)
  {
    hide ListsAccepted, RankTable, HeaderAccepted, IsProtected;
    IdsMean(m, k, id);
  }

  // ----- decoding without special tokens -----

  /** The ids that are not in the set, in order. */
  function Without(ids: seq<int>, dropped: set<nat>): (kept: seq<int>)
    ensures forall id :: id in kept <==> id in ids && (id < 0 || id !in dropped)
  {
    if |ids| == 0 then []
    else
      var last := ids[|ids| - 1];
      Without(ids[..|ids| - 1], dropped) + if last >= 0 && last in dropped then [] else [last]
  }

  ghost predicate InRange(k: Tokenizer, ids: seq<int>) {
    forall i :: 0 <= i < |ids| ==> 0 <= ids[i] < |k.idToToken|
  }

  /** Decoding that skips special tokens is plain decoding of the ids that remain. */
  lemma {:induction false} SkippingDecodes(k: Tokenizer, ids: seq<int>)
    ensures Decodable(k, ids, true) <==> InRange(k, ids) && Decodable(k, Without(ids, k.skipSpecialIds), false)
    ensures Decodable(k, ids, true) ==>
      DecodedBytes(k, ids, true) == DecodedBytes(k, Without(ids, k.skipSpecialIds), false)
  {
    hide TokenDecodable, TokenBytes;
    if |ids| > 0 {
      var front, last := ids[..|ids| - 1], ids[|ids| - 1];
      SkippingDecodes(k, front);
      LastDecodable(k, front, last, true);
      assert ids == front + [last];
      if last >= 0 && last in k.skipSpecialIds {
        assert Without(ids, k.skipSpecialIds) == Without(front, k.skipSpecialIds);
      } else {
        LastDecodable(k, Without(front, k.skipSpecialIds), last, false);
      }
    }
  }

  lemma LastDecodable(k: Tokenizer, front: seq<int>, last: int, skip: bool)
    ensures Decodable(k, front + [last], skip) <==>
              && Decodable(k, front, skip) && 0 <= last < |k.idToToken|
              && ((skip && last in k.skipSpecialIds) || TokenDecodable(k, last))
    ensures Decodable(k, front + [last], skip) ==>
      DecodedBytes(k, front + [last], skip)
      == DecodedBytes(k, front, skip) + if skip && last in k.skipSpecialIds then [] else TokenBytes(k, last)
  {
    hide TokenDecodable, TokenBytes;
    var ids := front + [last];
    assert ids[..|ids| - 1] == front;
    assert forall i :: 0 <= i < |front| ==> ids[i] == front[i];
    assert ids[|front|] == last;
  }

  // ----- encoding with markers -----

  lemma {:induction false} WithoutAppend(a: seq<int>, b: seq<int>, dropped: set<nat>)
    ensures Without(a + b, dropped) == Without(a, dropped) + Without(b, dropped)
  {
    if |b| == 0 {
      assert a + b == a;
    } else {
      var c := b[..|b| - 1];
      assert (a + b)[..|a + b| - 1] == a + c && (a + b)[|a + b| - 1] == b[|b| - 1];
      WithoutAppend(a, c, dropped);
    }
  }

  lemma {:induction false} NoneDropped(ids: seq<int>, dropped: set<nat>)
    requires forall i :: 0 <= i < |ids| ==> ids[i] < 0 || ids[i] !in dropped
    ensures Without(ids, dropped) == ids
  {
    if |ids| > 0 {
      NoneDropped(ids[..|ids| - 1], dropped);
      assert ids == ids[..|ids| - 1] + [ids[|ids| - 1]];
    }
  }

  lemma {:induction false} AllDropped(ids: seq<int>, dropped: set<nat>)
    requires forall i :: 0 <= i < |ids| ==> ids[i] >= 0 && ids[i] in dropped
    ensures Without(ids, dropped) == []
  {
    if |ids| > 0 {
      AllDropped(ids[..|ids| - 1], dropped);
    }
  }

  /** What encoding puts before and after the ids of the text. */
  ghost predicate Markers(k: Tokenizer, before: seq<nat>, after: seq<nat>) {
    && before == (if k.addBos && k.bos.Some? then [k.bos.value] else [])
    && after == (if k.addEos && k.eos.Some? then [k.eos.value] else [])
  }

  /** The markers of a built tokenizer are in its vocabulary and come off again. */
  lemma {:induction false} MarkersComeOff(m: Metadata, templateSupported: string -> bool, k: Tokenizer, before: seq<nat>, ids: seq<nat>, after: seq<nat>)
    requires Accepted(m, templateSupported) && Built(m, k) && Markers(k, before, after)
    ensures Without(before + ids + after, k.skipSpecialIds) == Without(ids, k.skipSpecialIds)
    ensures InRange(k, before) && InRange(k, after)
  {
    hide Accepted, Built, Without;
    MarkerSkipped(m, templateSupported, k);
    WithoutAppend(before + ids, after, k.skipSpecialIds);
    WithoutAppend(before, ids, k.skipSpecialIds);
    AllDropped(before, k.skipSpecialIds);
    AllDropped(after, k.skipSpecialIds);
  }

  lemma MarkerSkipped(m: Metadata, templateSupported: string -> bool, k: Tokenizer)
    requires Accepted(m, templateSupported) && Built(m, k)
    ensures k.bos.Some? ==> k.bos.value in k.skipSpecialIds && k.bos.value < |k.idToToken|
    ensures k.eos.Some? ==> k.eos.value in k.skipSpecialIds && k.eos.value < |k.idToToken|
  {
    hide ListsAccepted, HeaderAccepted, RankTable;
  }

  /** A built tokenizer's whole round trip: a text none of whose ids is skippable, encoded with markers and
      decoded without special tokens, comes back exactly when no unit is misread. */
  lemma {:induction false} MarkedRoundTrip(m: Metadata, templateSupported: string -> bool, k: Tokenizer, t: CharTables,
                                           text: string, before: seq<nat>, after: seq<nat>)
    requires Accepted(m, templateSupported) && Built(m, k) && Valid(k) && Sound(t) && Encodable(k, t, text)
    requires Markers(k, before, after)
    requires forall i :: 0 <= i < |Units(k, t, text)| ==> Id(k, Units(k, t, text)[i]) !in k.skipSpecialIds
    ensures
      var ids := before + Ids(k, Units(k, t, text)) + after;
      && Decodable(k, ids, true)
      && (Utf8.Lossy(DecodedBytes(k, ids, true)) == text <==> NoMisread(k, Units(k, t, text)))
  {
    hide Accepted, Built, InverseVocabulary, ByteTables, ProtectedNamed, LongestFirst, Sound, SegmentsFit, Units, Decodable,
         DecodedBytes, NoMisread, Markers, Known;
    var plain := Ids(k, Units(k, t, text));
    RoundTrip(k, t, text);
    NoneDropped(plain, k.skipSpecialIds);
    MarkersComeOff(m, templateSupported, k, before, plain, after);
    SkippingDecodes(k, before + plain + after);
    PlainInRange(k, plain);
  }

  lemma PlainInRange(k: Tokenizer, ids: seq<int>)
    ensures Decodable(k, ids, false) ==> InRange(k, ids)
  {
    hide TokenDecodable;
  }

  // ----- what is accepted, key by key -----

  ghost predicate HasText(m: Metadata, key: string, text: string) { key in m && m[key] == VString(text) }

  ghost predicate HasTexts(m: Metadata, key: string, texts: seq<string>) { key in m && m[key] == VStringArray(texts) }

  /** Absent, or an id that there is a token for. */
  ghost predicate IdWithin(m: Metadata, key: string, count: nat) {
    key in m ==> m[key].VU32? && m[key].u32 < count
  }

  ghost predicate FlagOrAbsent(m: Metadata, key: string) { key in m ==> m[key].VBool? }

  ghost predicate IdsWithin(m: Metadata, count: nat) {
    && IdWithin(m, "tokenizer.ggml.bos_token_id", count) && IdWithin(m, "tokenizer.ggml.eos_token_id", count)
    && IdWithin(m, "tokenizer.ggml.eot_token_id", count) && IdWithin(m, "tokenizer.ggml.padding_token_id", count)
  }

  ghost predicate TwoParts(merge: string) { exists left, right :: IsMerge(merge, left, right) }

  /** Tokens are distinct, not empty and no more than an id can number; merges are distinct. */
  ghost predicate GoodLists(m: Metadata, tokens: seq<string>, merges: seq<string>) {
    && HasTexts(m, "tokenizer.ggml.tokens", tokens) && 0 < |tokens| < 0x8000_0000
    && (forall i :: 0 <= i < |tokens| ==> tokens[i] != "")
    && (forall i, j :: 0 <= i < j < |tokens| ==> tokens[i] != tokens[j])
    && ("tokenizer.ggml.token_type" in m ==>
          m["tokenizer.ggml.token_type"].VI32Array? && |m["tokenizer.ggml.token_type"].ints| == |tokens|)
    && HasTexts(m, "tokenizer.ggml.merges", merges)
    && (forall i :: 0 <= i < |merges| ==> TwoParts(merges[i]))
    && (forall i, j :: 0 <= i < j < |merges| ==> merges[i] != merges[j])
  }

  lemma MergesSplit(merges: seq<string>)
    ensures (forall i :: 0 <= i < |merges| ==> SplitMerge(merges[i]).Some?)
            <==> forall i :: 0 <= i < |merges| ==> TwoParts(merges[i])
  {
    hide TwoParts, SplitMerge;
    forall i | 0 <= i < |merges|
      ensures SplitMerge(merges[i]).Some? <==> TwoParts(merges[i])
    {
      SplitSome(merges[i]);
    }
  }

  lemma SplitSome(merge: string)
    ensures SplitMerge(merge).Some? <==> TwoParts(merge)
  {
    hide IsMerge, SplitMerge;
    SplitMeans(merge);
    forall left, right | IsMerge(merge, left, right)
      ensures SplitMerge(merge).Some?
    {
      SplitComplete(merge, left, right);
    }
  }

  lemma {:induction false} ListsMean(m: Metadata)
    ensures ListsAccepted(m) ==>
      GoodLists(m, m["tokenizer.ggml.tokens"].strings, m["tokenizer.ggml.merges"].strings)
    ensures forall tokens, merges :: GoodLists(m, tokens, merges) ==>
      ListsAccepted(m) && RequiredStringArray(m, TOKENS) == Ok(tokens)
  {
    hide TwoParts, SplitMerge;
    if ListsAccepted(m) {
      MergesSplit(m["tokenizer.ggml.merges"].strings);
    }
    forall tokens, merges | GoodLists(m, tokens, merges)
      ensures ListsAccepted(m) && RequiredStringArray(m, TOKENS) == Ok(tokens)
    {
      MergesSplit(merges);
    }
  }

  /** The metadata a tokenizer is built from, and no other. */
  lemma {:induction false} AcceptedMeans(m: Metadata, templateSupported: string -> bool)
    ensures Accepted(m, templateSupported) <==>
      && HasText(m, "tokenizer.ggml.model", "gpt2")
      && (HasText(m, "tokenizer.ggml.pre", "qwen2") || HasText(m, "tokenizer.ggml.pre", "qwen35"))
      && (exists template :: HasText(m, "tokenizer.chat_template", template) && template != "" && templateSupported(template))
      && (exists tokens, merges :: GoodLists(m, tokens, merges) && IdsWithin(m, |tokens|))
      && FlagOrAbsent(m, "tokenizer.ggml.add_bos_token") && FlagOrAbsent(m, "tokenizer.ggml.add_eos_token")
  {
    hide ListsAccepted, GoodLists;
    ListsMean(m);
    if ListsAccepted(m) {
      ListsKeys(m);
    }
  }

  lemma ListsKeys(m: Metadata)
    requires ListsAccepted(m)
    ensures "tokenizer.ggml.tokens" in m && m["tokenizer.ggml.tokens"].VStringArray?
    ensures "tokenizer.ggml.merges" in m && m["tokenizer.ggml.merges"].VStringArray?
    ensures RequiredStringArray(m, TOKENS) == Ok(m["tokenizer.ggml.tokens"].strings)
  {
    hide WellFormedTokens, WellFormedMerges;
  }

  /** A merge ranks by its place in the list. */
  lemma {:induction false} RankIsPlace(merges: seq<string>, table: Bpe.Merges, left: string, right: string, rank: nat)
    requires RankTable(merges, table)
    ensures (left, right) in table && table[(left, right)] == rank <==>
              rank < |merges| && merges[rank] == left + " " + right && left != "" && right != "" && ' ' !in left && ' ' !in right
  {
    hide SplitMerge;
    if rank < |merges| && IsMerge(merges[rank], left, right) {
      SplitComplete(merges[rank], left, right);
    }
    if (left, right) in table && table[(left, right)] == rank {
      assert SplitMerge(merges[rank]) == Some((left, right));
      SplitMeans(merges[rank]);
    }
  }

  lemma SplitMeans(merge: string)
    ensures SplitMerge(merge).Some? ==> IsMerge(merge, SplitMerge(merge).value.0, SplitMerge(merge).value.1)
  {
    hide IsMerge;
  }
}
