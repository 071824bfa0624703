/** The byte-level BPE tokenizer: encoding text to token ids and decoding them. */
module Tokenizer {
  import opened Prelude
  import opened Parts
  import opened Segmentation
  import opened Pretokenize
  import Utf8
  import ByteMaps
  import Bpe

  const MAX_PRETOKEN_PIECE_BYTES: nat := 4096

  datatype Tokenizer = Tokenizer(
    vocab: map<string, nat>, idToToken: seq<string>, merges: Bpe.Merges,
    protectedTokens: seq<Protected>, skipSpecialIds: set<nat>, stopTokenIds: set<nat>,
    byteEncoder: seq<char>, byteDecoder: map<char, byte>,
    bos: Option<nat>, eos: Option<nat>, addBos: bool, addEos: bool)

  /** `vocab` and `idToToken` are inverse to each other. */
  ghost predicate InverseVocabulary(k: Tokenizer) {
    (forall id: nat :: id < |k.idToToken| ==> k.idToToken[id] in k.vocab && k.vocab[k.idToToken[id]] == id)
    && forall s :: s in k.vocab ==> k.vocab[s] < |k.idToToken| && k.idToToken[k.vocab[s]] == s
  }

  ghost predicate ProtectedNamed(k: Tokenizer) {
    forall p :: p in k.protectedTokens ==> p.id < |k.idToToken| && p.text == k.idToToken[p.id] && |p.text| > 0
  }

  ghost predicate ByteTables(k: Tokenizer) {
    |k.byteEncoder| == 256 && (forall b: byte :: k.byteEncoder[b] == ByteMaps.ByteChar(b))
    && forall c: char, b: byte :: (c in k.byteDecoder && k.byteDecoder[c] == b) <==> ByteMaps.CharByte(c) == Some(b)
  }

  ghost predicate Valid(k: Tokenizer) {
    && InverseVocabulary(k) && ProtectedNamed(k) && ByteTables(k) && LongestFirst(k.protectedTokens)
  }

  lemma ProtectedDistinct(k: Tokenizer)
    requires ProtectedNamed(k) && InverseVocabulary(k)
    ensures Distinct(k.protectedTokens)
  {
  }

  // ----- encoding -----

  /** What an output id stands for: a protected token found in the text, or a merged part. */
  datatype Unit = Token(token: Protected) | Part(text: string)

  /** The byte-level characters of a byte string. */
  function ByteText(bs: seq<byte>): (s: string)
    ensures |s| == |bs| && forall i :: 0 <= i < |bs| ==> s[i] == ByteMaps.ByteChar(bs[i])
  {
    seq(|bs|, i requires 0 <= i < |bs| => ByteMaps.ByteChar(bs[i]))
  }

  ghost function PartUnits(parts: seq<string>): (units: seq<Unit>)
    ensures |units| == |parts|
  {
    seq(|parts|, i requires 0 <= i < |parts| => Part(parts[i]))
  }

  ghost function PieceUnits(k: Tokenizer, piece: string): seq<Unit> {
    PartUnits(Bpe.Bpe(k.merges, Chars(ByteText(Utf8.Encode(piece)))))
  }

  ghost function PiecesUnits(k: Tokenizer, pieces: seq<string>): seq<Unit> {
    if |pieces| == 0 then [] else PieceUnits(k, pieces[0]) + PiecesUnits(k, pieces[1..])
  }

  ghost function SegmentUnits(k: Tokenizer, t: CharTables, s: Segment): seq<Unit>
    requires Sound(t)
  {
    if s.Special? then [Token(s.token)] else PiecesUnits(k, Pieces(t, s.text))
  }

  ghost function SegmentsUnits(k: Tokenizer, t: CharTables, segments: seq<Segment>): seq<Unit>
    requires Sound(t)
  {
    if |segments| == 0 then [] else SegmentUnits(k, t, segments[0]) + SegmentsUnits(k, t, segments[1..])
  }

  ghost predicate PiecesFit(pieces: seq<string>) {
    forall i :: 0 <= i < |pieces| ==> |Utf8.Encode(pieces[i])| <= MAX_PRETOKEN_PIECE_BYTES
  }

  ghost predicate SegmentFits(t: CharTables, s: Segment)
    requires Sound(t)
  {
    s.Gap? ==> PiecesFit(Pieces(t, s.text))
  }

  ghost predicate SegmentsFit(t: CharTables, segments: seq<Segment>)
    requires Sound(t)
  {
    forall i :: 0 <= i < |segments| ==> SegmentFits(t, segments[i])
  }

  ghost predicate Known(k: Tokenizer, units: seq<Unit>) {
    forall i :: 0 <= i < |units| ==> units[i].Part? ==> units[i].text in k.vocab
  }

  ghost function Id(k: Tokenizer, u: Unit): nat
    requires u.Part? ==> u.text in k.vocab
  {
    if u.Token? then u.token.id else k.vocab[u.text]
  }

  ghost function Ids(k: Tokenizer, units: seq<Unit>): (ids: seq<nat>)
    requires Known(k, units)
    ensures |ids| == |units|
  {
    seq(|units|, i requires 0 <= i < |units| => Id(k, units[i]))
  }

  ghost function Units(k: Tokenizer, t: CharTables, text: string): seq<Unit>
    requires Valid(k) && Sound(t)
  {
    ProtectedDistinct(k);
    SegmentsUnits(k, t, Segments(k.protectedTokens, text))
  }

  /** Every piece is within the merge bound and every part is in the vocabulary. */
  ghost predicate Encodable(k: Tokenizer, t: CharTables, text: string)
    requires Valid(k) && Sound(t)
  {
    ProtectedDistinct(k);
    SegmentsFit(t, Segments(k.protectedTokens, text)) && Known(k, Units(k, t, text))
  }

  lemma IdsAppend(k: Tokenizer, a: seq<Unit>, b: seq<Unit>)
    ensures Known(k, a + b) <==> Known(k, a) && Known(k, b)
    ensures Known(k, a) && Known(k, b) ==> Ids(k, a + b) == Ids(k, a) + Ids(k, b)
  {
    if Known(k, a + b) {
      assert forall i :: 0 <= i < |a| ==> a[i] == (a + b)[i];
      assert forall i :: 0 <= i < |b| ==> b[i] == (a + b)[|a| + i];
    }
  }

  method EncodePiece(k: Tokenizer, piece: string, tokens: seq<nat>) returns (ok: bool, extended: seq<nat>)
    requires ByteTables(k)
    ensures ok <==> Known(k, PieceUnits(k, piece))
    ensures ok ==> extended == tokens + Ids(k, PieceUnits(k, piece))
  {
    hide ByteTables, ByteText;
    var encoded := EncodeBytes(k, Utf8.Encode(piece));
    var parts := Bpe.ApplyBpe(k.merges, encoded);
    extended := tokens;
    for i := 0 to |parts|
      invariant forall j :: 0 <= j < i ==> parts[j] in k.vocab
      invariant |extended| == |tokens| + i && extended[..|tokens|] == tokens
      invariant forall j :: 0 <= j < i ==> extended[|tokens| + j] == k.vocab[parts[j]]
    {
      if parts[i] !in k.vocab {
        assert !Known(k, PieceUnits(k, piece)) by {
          assert PieceUnits(k, piece)[i] == Part(parts[i]);
        }
        return false, [];
      }
      extended := extended + [k.vocab[parts[i]]];
    }
    ok := true;
  }

  method EncodeBytes(k: Tokenizer, bytes: seq<byte>) returns (encoded: seq<string>)
    requires ByteTables(k)
    ensures encoded == Chars(ByteText(bytes))
  {
    hide ByteMaps.ByteChar;
    encoded := [];
    for i := 0 to |bytes|
      invariant |encoded| == i && forall j :: 0 <= j < i ==> encoded[j] == [ByteText(bytes)[j]]
    {
      encoded := encoded + [[k.byteEncoder[bytes[i]]]];
    }
  }

  /** The ordinary text up to the next protected token. */
  method EncodeGap(k: Tokenizer, t: CharTables, gap: string, tokens: seq<nat>) returns (ok: bool, extended: seq<nat>)
    requires ByteTables(k) && Sound(t)
    ensures ok <==> PiecesFit(Pieces(t, gap)) && Known(k, PiecesUnits(k, Pieces(t, gap)))
    ensures ok ==> extended == tokens + Ids(k, PiecesUnits(k, Pieces(t, gap)))
  {
    hide ByteTables, Sound, Known, Ids, PieceUnits, Pieces;
    var pieces := Pretokenize.Pretokenize(t, gap);
    extended := tokens;
    ghost var done: seq<Unit> := [];
    NothingDone(k, tokens, PiecesUnits(k, pieces));
    for i := 0 to |pieces|
      invariant forall j :: 0 <= j < i ==> |Utf8.Encode(pieces[j])| <= MAX_PRETOKEN_PIECE_BYTES
      invariant Known(k, done) && extended == tokens + Ids(k, done)
      invariant PiecesUnits(k, pieces) == done + PiecesUnits(k, pieces[i..])
    {
      if |Utf8.Encode(pieces[i])| > MAX_PRETOKEN_PIECE_BYTES {
        return false, [];
      }
      ghost var units := PieceUnits(k, pieces[i]);
      assert pieces[i..][1..] == pieces[i + 1..];
      UnitsAdvance(k, done, units, PiecesUnits(k, pieces[i + 1..]), tokens);
      ok, extended := EncodePiece(k, pieces[i], extended);
      if !ok {
        return;
      }
      done := done + units;
    }
    ok := true;
    assert PiecesUnits(k, pieces) == done;
  }

  lemma NothingDone(k: Tokenizer, tokens: seq<nat>, units: seq<Unit>)
    ensures Known(k, []) && tokens + Ids(k, []) == tokens && [] + units == units
  {
  }

  lemma UnitsAdvance(k: Tokenizer, done: seq<Unit>, units: seq<Unit>, rest: seq<Unit>, tokens: seq<nat>)
    requires Known(k, done)
    ensures done + (units + rest) == (done + units) + rest
    ensures Known(k, done + (units + rest)) ==> Known(k, units)
    ensures Known(k, units) ==>
      Known(k, done + units) && tokens + Ids(k, done + units) == (tokens + Ids(k, done)) + Ids(k, units)
  {
    hide Known, Ids;
    IdsAppend(k, done, units);
    IdsAppend(k, done, units + rest);
    IdsAppend(k, units, rest);
  }

  method EncodeText(k: Tokenizer, t: CharTables, text: string, initial: seq<nat>) returns (r: Result<seq<nat>>)
    requires Valid(k) && Sound(t)
    ensures r.Ok? <==> Encodable(k, t, text)
    ensures r.Ok? ==> r.value == initial + Ids(k, Units(k, t, text))
  {
    hide Valid, Sound, Known, Ids, SegmentUnits, SegmentFits, Units, Encodable, First, Segment.Text;
    var tokens := initial;
    var index := 0;
    ghost var done: seq<Unit> := [];
    NothingDone(k, initial, Units(k, t, text));
    assert text[0..] == text;
    while index < |text|
      invariant index <= |text|
      invariant Known(k, done) && tokens == initial + Ids(k, done)
      invariant Units(k, t, text) == done + Units(k, t, text[index..])
      invariant Encodable(k, t, text) <==> Encodable(k, t, text[index..])
    {
      var rest := text[index..];
      FirstSegment(k, t, rest);
      ghost var units := SegmentUnits(k, t, First(k, rest));
      UnitsAdvance(k, done, units, Units(k, t, rest[|First(k, rest).Text()|..]), initial);
      var ok, n;
      ok, n, tokens := EncodeSegment(k, t, rest, tokens);
      if !ok {
        return Err;
      }
      assert rest[n..] == text[index + n..];
      done := done + units;
      index := index + n;
    }
    NothingLeft(k, t, text[index..]);
    assert done + [] == done;
    r := Ok(tokens);
  }

  /** The segment at the head of a text. */
  ghost function First(k: Tokenizer, text: string): Segment
    requires Valid(k) && |text| > 0
  {
    ProtectedDistinct(k);
    Segments(k.protectedTokens, text)[0]
  }

  lemma FirstSegment(k: Tokenizer, t: CharTables, text: string)
    requires Valid(k) && Sound(t) && |text| > 0
    ensures 0 < |First(k, text).Text()| <= |text|
    ensures
      var s := First(k, text);
      var rest := text[|s.Text()|..];
      && Units(k, t, text) == SegmentUnits(k, t, s) + Units(k, t, rest)
      && (Encodable(k, t, text) <==> SegmentFits(t, s) && Known(k, SegmentUnits(k, t, s)) && Encodable(k, t, rest))
  {
    hide Sound, ByteTables, InverseVocabulary, ProtectedNamed, LongestFirst, Known, SegmentFits, SegmentUnits, Segments, Distinct;
    ProtectedDistinct(k);
    GapOrToken(k.protectedTokens, text);
    var s := First(k, text);
    var segments, rest := Segments(k.protectedTokens, text), text[|s.Text()|..];
    assert segments[1..] == Segments(k.protectedTokens, rest);
    assert forall i :: 0 < i < |segments| ==> segments[i] == segments[1..][i - 1];
    IdsAppend(k, SegmentUnits(k, t, s), Units(k, t, rest));
  }

  lemma NothingLeft(k: Tokenizer, t: CharTables, text: string)
    requires Valid(k) && Sound(t) && text == ""
    ensures Units(k, t, text) == [] && Encodable(k, t, text)
  {
    hide Sound, ByteTables, InverseVocabulary, LongestFirst;
  }

  /** One turn of the encoding loop: a protected token, or the text before the next one. */
  method EncodeSegment(k: Tokenizer, t: CharTables, rest: string, tokens: seq<nat>)
    returns (ok: bool, n: nat, extended: seq<nat>)
    requires Valid(k) && Sound(t) && |rest| > 0
    ensures ok <==> SegmentFits(t, First(k, rest)) && Known(k, SegmentUnits(k, t, First(k, rest)))
    ensures ok ==> extended == tokens + Ids(k, SegmentUnits(k, t, First(k, rest))) && n == |First(k, rest).Text()|
  {
    hide ByteTables, Sound, LongestFirst, InverseVocabulary, PiecesUnits, ProtectedNamed, Distinct;
    ProtectedDistinct(k);
    GapOrToken(k.protectedTokens, rest);
    var special := MatchSpecial(k.protectedTokens, rest);
    if special.Some? {
      n := |special.value.text|;
      extended := tokens + [special.value.id];
      ok := true;
    } else {
      n := NextSpecial(k.protectedTokens, rest);
      ok, extended := EncodeGap(k, t, rest[..n], tokens);
    }
  }

  lemma {:induction false} GapOrToken(tokens: seq<Protected>, rest: string)
    requires Distinct(tokens) && |rest| > 0
    ensures |Segments(tokens, rest)| > 0
    ensures var s := Segments(tokens, rest)[0];
      && 0 < |s.Text()| <= |rest| && Segments(tokens, rest)[1..] == Segments(tokens, rest[|s.Text()|..])
      && s == match MatchSpecial(tokens, rest) { case Some(p) => Special(p) case None => Gap(rest[..NextSpecial(tokens, rest)]) }
  {
    if MatchSpecial(tokens, rest).None? {
      GapNonEmpty(tokens, rest);
    } else {
      TokenNonEmpty(tokens, MatchSpecial(tokens, rest).value);
    }
  }

  method Encode(k: Tokenizer, t: CharTables, text: string, addSpecialTokens: bool) returns (r: Result<seq<nat>>)
    requires Valid(k) && Sound(t)
    ensures r.Ok? <==> Encodable(k, t, text)
    ensures r.Ok? ==>
      r.value == (if addSpecialTokens && k.addBos && k.bos.Some? then [k.bos.value] else [])
                 + Ids(k, Units(k, t, text))
                 + (if addSpecialTokens && k.addEos && k.eos.Some? then [k.eos.value] else [])
  {
    hide Valid, Encodable, Units;
    var tokens: seq<nat> := [];
    if addSpecialTokens && k.addBos && k.bos.Some? {
      tokens := tokens + [k.bos.value];
    }
    r := EncodeText(k, t, text, tokens);
    if r.Err? {
      return;
    }
    tokens := r.value;
    if addSpecialTokens && k.addEos && k.eos.Some? {
      tokens := tokens + [k.eos.value];
    }
    r := Ok(tokens);
  }

  // ----- decoding -----

  predicate IsProtected(k: Tokenizer, id: int) {
    exists p :: p in k.protectedTokens && p.id == id
  }

  /** Every character stands for a byte. */
  predicate ByteLevel(s: string) {
    forall i :: 0 <= i < |s| ==> ByteMaps.CharByte(s[i]).Some?
  }

  function CharBytes(s: string): (bs: seq<byte>)
    requires ByteLevel(s)
    ensures |bs| == |s|
  {
    seq(|s|, i requires 0 <= i < |s| => ByteMaps.CharByte(s[i]).value)
  }

  predicate Skipped(k: Tokenizer, id: int, skipSpecialTokens: bool) {
    skipSpecialTokens && id in k.skipSpecialIds
  }

  predicate TokenDecodable(k: Tokenizer, id: int) {
    0 <= id < |k.idToToken| && (IsProtected(k, id) || ByteLevel(k.idToToken[id]))
  }

  /** A protected token is read as text, any other through the byte table. */
  function TokenBytes(k: Tokenizer, id: int): seq<byte>
    requires TokenDecodable(k, id)
  {
    if IsProtected(k, id) then Utf8.Encode(k.idToToken[id]) else CharBytes(k.idToToken[id])
  }

  ghost predicate Decodable(k: Tokenizer, ids: seq<int>, skipSpecialTokens: bool) {
    forall i :: 0 <= i < |ids| ==>
      0 <= ids[i] < |k.idToToken| && (Skipped(k, ids[i], skipSpecialTokens) || TokenDecodable(k, ids[i]))
  }

  ghost function DecodedBytes(k: Tokenizer, ids: seq<int>, skipSpecialTokens: bool): seq<byte>
    requires Decodable(k, ids, skipSpecialTokens)
  {
    if |ids| == 0 then []
    else
      var rest, last := ids[..|ids| - 1], ids[|ids| - 1];
      DecodedBytes(k, rest, skipSpecialTokens)
      + if Skipped(k, last, skipSpecialTokens) then [] else TokenBytes(k, last)
  }

  method Decode(k: Tokenizer, ids: seq<int>, skipSpecialTokens: bool) returns (r: Result<string>)
    requires ByteTables(k)
    ensures r.Ok? <==> Decodable(k, ids, skipSpecialTokens)
    ensures r.Ok? ==> r.value == Utf8.Lossy(DecodedBytes(k, ids, skipSpecialTokens))
  {
    hide ByteTables, TokenBytes, ByteLevel, IsProtected;
    var bytes: seq<byte> := [];
    for i := 0 to |ids|
      invariant Decodable(k, ids[..i], skipSpecialTokens) && bytes == DecodedBytes(k, ids[..i], skipSpecialTokens)
    {
      var id := ids[i];
      assert ids[..i + 1][..i] == ids[..i];
      if id < 0 || id >= |k.idToToken| {
        return Err;
      }
      if !Skipped(k, id, skipSpecialTokens) {
        var token := DecodeToken(k, id);
        if token.Err? {
          return Err;
        }
        bytes := bytes + token.value;
      }
      assert bytes == DecodedBytes(k, ids[..i + 1], skipSpecialTokens);
    }
    assert ids[..|ids|] == ids;
    r := Ok(Utf8.Lossy(bytes));
  }

  method DecodeToken(k: Tokenizer, id: nat) returns (r: Result<seq<byte>>)
    requires ByteTables(k) && id < |k.idToToken|
    ensures r.Ok? <==> TokenDecodable(k, id)
    ensures r.Ok? ==> r.value == TokenBytes(k, id)
  {
    hide ByteMaps.CharByte;
    var token := k.idToToken[id];
    if IsProtected(k, id) {
      return Ok(Utf8.Encode(token));
    }
    var bytes: seq<byte> := [];
    for i := 0 to |token|
      invariant |bytes| == i && forall j :: 0 <= j < i ==> ByteMaps.CharByte(token[j]) == Some(bytes[j])
    {
      InByteTable(k, token[i]);
      if token[i] !in k.byteDecoder {
        return Err;
      }
      bytes := bytes + [k.byteDecoder[token[i]]];
    }
    r := Ok(bytes);
  }

  lemma InByteTable(k: Tokenizer, c: char)
    requires ByteTables(k)
    ensures c in k.byteDecoder <==> ByteMaps.CharByte(c).Some?
    ensures c in k.byteDecoder ==> ByteMaps.CharByte(c) == Some(k.byteDecoder[c])
  {
    hide ByteMaps.CharByte;
    if c in k.byteDecoder {
      assert ByteMaps.CharByte(c) == Some(k.byteDecoder[c]);
    }
    if ByteMaps.CharByte(c).Some? {
      assert c in k.byteDecoder && k.byteDecoder[c] == ByteMaps.CharByte(c).value;
    }
  }
}
