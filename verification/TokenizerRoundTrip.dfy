/** Decoding what was encoded: when it gives back the text, and when it does not. */
module TokenizerRoundTrip {
  import opened Prelude
  import opened Parts
  import opened Segmentation
  import opened Pretokenize
  import opened Tokenizer
  import Utf8
  import ByteMaps
  import Bpe

  /** A merged part whose vocabulary entry is protected and has a character outside ASCII:
      decoding reads it as text although it was written as byte-level characters. */
  ghost predicate Misread(k: Tokenizer, u: Unit) {
    u.Part? && u.text in k.vocab && IsProtected(k, k.vocab[u.text]) && !Utf8.IsAscii(u.text)
  }

  ghost predicate Genuine(k: Tokenizer, u: Unit) {
    if u.Token? then u.token in k.protectedTokens else ByteLevel(u.text)
  }

  ghost predicate AllGenuine(k: Tokenizer, units: seq<Unit>) {
    forall i :: 0 <= i < |units| ==> Genuine(k, units[i])
  }

  /** The bytes of the text that a unit was made from. */
  ghost function UnitSource(k: Tokenizer, u: Unit): seq<byte>
    requires Genuine(k, u)
  {
    if u.Token? then Utf8.Encode(u.token.text) else CharBytes(u.text)
  }

  ghost function Source(k: Tokenizer, units: seq<Unit>): seq<byte>
    requires AllGenuine(k, units)
  {
    if |units| == 0 then []
    else Source(k, units[..|units| - 1]) + UnitSource(k, units[|units| - 1])
  }

  lemma {:induction false} SourceConcat(k: Tokenizer, a: seq<Unit>, b: seq<Unit>)
    requires AllGenuine(k, a) && AllGenuine(k, b)
    ensures AllGenuine(k, a + b) && Source(k, a + b) == Source(k, a) + Source(k, b)
  {
    hide Genuine, UnitSource;
    if |b| == 0 {
      assert a + b == a;
    } else {
      var c := b[..|b| - 1];
      SourceConcat(k, a, c);
      assert (a + b)[..|a + b| - 1] == a + c && (a + b)[|a + b| - 1] == b[|b| - 1];
      Associate(Source(k, a), Source(k, c), UnitSource(k, b[|b| - 1]));
    }
  }

  // ----- the units of a text come from its bytes -----

  lemma ByteTextDecodes(bs: seq<byte>)
    ensures ByteLevel(ByteText(bs)) && CharBytes(ByteText(bs)) == bs
  {
    hide ByteMaps.CharByte, ByteMaps.ByteChar;
    forall i | 0 <= i < |bs|
      ensures ByteMaps.CharByte(ByteText(bs)[i]) == Some(bs[i])
    {
      ByteMaps.CharByteInverse(ByteText(bs)[i], bs[i]);
    }
  }

  lemma {:induction false} PartsSource(k: Tokenizer, parts: seq<string>)
    requires ByteLevel(Flat(parts))
    ensures AllGenuine(k, PartUnits(parts)) && Source(k, PartUnits(parts)) == CharBytes(Flat(parts))
  {
    hide ByteMaps.CharByte;
    if |parts| > 0 {
      var front, last := parts[..|parts| - 1], parts[|parts| - 1];
      assert parts == front + [last];
      FlatConcat(front, [last]);
      FlatSingle(last);
      ByteLevelParts(Flat(front), last);
      PartsSource(k, front);
      assert PartUnits(parts) == PartUnits(front) + [Part(last)];
      assert PartUnits(parts)[..|parts| - 1] == PartUnits(front);
    }
  }

  lemma ByteLevelParts(a: string, b: string)
    requires ByteLevel(a + b)
    ensures ByteLevel(a) && ByteLevel(b) && CharBytes(a + b) == CharBytes(a) + CharBytes(b)
  {
    hide ByteMaps.CharByte;
    assert forall i :: 0 <= i < |a| ==> a[i] == (a + b)[i];
    assert forall i :: 0 <= i < |b| ==> b[i] == (a + b)[|a| + i];
  }

  lemma {:induction false} PieceSource(k: Tokenizer, piece: string)
    ensures AllGenuine(k, PieceUnits(k, piece)) && Source(k, PieceUnits(k, piece)) == Utf8.Encode(piece)
  {
    hide Genuine, Source, PartUnits, ByteLevel, CharBytes, Bpe.Bpe, Flat;
    var bs := Utf8.Encode(piece);
    ByteTextDecodes(bs);
    Bpe.BpeKeepsText(k.merges, Chars(ByteText(bs)));
    FlatChars(ByteText(bs));
    PartsSource(k, Bpe.Bpe(k.merges, Chars(ByteText(bs))));
  }

  lemma {:induction false} PiecesSource(k: Tokenizer, pieces: seq<string>)
    ensures AllGenuine(k, PiecesUnits(k, pieces)) && Source(k, PiecesUnits(k, pieces)) == Utf8.Encode(Flat(pieces))
  {
    hide Genuine, UnitSource, PieceUnits;
    if |pieces| > 0 {
      PieceSource(k, pieces[0]);
      PiecesSource(k, pieces[1..]);
      SourceConcat(k, PieceUnits(k, pieces[0]), PiecesUnits(k, pieces[1..]));
      Utf8.EncodeConcat(pieces[0], Flat(pieces[1..]));
    }
  }

  lemma {:induction false} SegmentsSource(k: Tokenizer, t: CharTables, text: string, segments: seq<Segment>)
    requires Sound(t) && IsSegmentation(Elements(k.protectedTokens), text, segments)
    ensures AllGenuine(k, SegmentsUnits(k, t, segments))
    ensures Source(k, SegmentsUnits(k, t, segments)) == Utf8.Encode(text)
    decreases |segments|
  {
    hide Sound, AllGenuine, Source, SegmentUnits;
    if |segments| == 0 {
      assert AllGenuine(k, []) && Source(k, []) == [] by { NoSource(k); }
    } else {
      var s := segments[0];
      SegmentSource(k, t, text, s);
      SegmentsSource(k, t, text[|s.Text()|..], segments[1..]);
      SourceConcat(k, SegmentUnits(k, t, s), SegmentsUnits(k, t, segments[1..]));
      assert text == s.Text() + text[|s.Text()|..];
      Utf8.EncodeConcat(s.Text(), text[|s.Text()|..]);
    }
  }

  lemma NoSource(k: Tokenizer)
    ensures AllGenuine(k, []) && Source(k, []) == []
  {
  }

  lemma {:induction false} SegmentSource(k: Tokenizer, t: CharTables, text: string, s: Segment)
    requires Sound(t) && (s.Special? ==> IsLongest(Elements(k.protectedTokens), s.token, text))
    ensures AllGenuine(k, SegmentUnits(k, t, s)) && Source(k, SegmentUnits(k, t, s)) == Utf8.Encode(s.Text())
  {
    hide Sound;
    if s.Special? {
      assert SegmentUnits(k, t, s)[..0] == [];
    } else {
      PiecesSource(k, Pieces(t, s.text));
      PiecesLossless(t, s.text);
    }
  }

  /** Nothing is lost in encoding: the units account for exactly the bytes of the text. */
  lemma {:induction false} UnitsSource(k: Tokenizer, t: CharTables, text: string)
    requires Valid(k) && Sound(t)
    ensures AllGenuine(k, Units(k, t, text)) && Source(k, Units(k, t, text)) == Utf8.Encode(text)
  {
    hide Sound, ByteTables, InverseVocabulary, ProtectedNamed, LongestFirst, AllGenuine, Source, Distinct, Elements;
    ProtectedDistinct(k);
    SegmentsCorrect(k.protectedTokens, text);
    SegmentsSource(k, t, text, Segments(k.protectedTokens, text));
  }

  // ----- how the units are read back -----

  /** Reading a unit back gives its source bytes, except that a misread unit gives more. */
  lemma UnitDecodes(k: Tokenizer, u: Unit)
    requires InverseVocabulary(k) && ProtectedNamed(k) && Genuine(k, u) && (u.Part? ==> u.text in k.vocab)
    ensures TokenDecodable(k, Id(k, u))
    ensures !Misread(k, u) ==> TokenBytes(k, Id(k, u)) == UnitSource(k, u)
    ensures Misread(k, u) ==> |TokenBytes(k, Id(k, u))| > |UnitSource(k, u)|
  {
    hide ByteLevel, Utf8.IsAscii;
    if u.Part? && IsProtected(k, k.vocab[u.text]) {
      Utf8.EncodedLength(u.text);
      if Utf8.IsAscii(u.text) {
        AsciiBytes(u.text);
      }
    } else if u.Token? {
      assert IsProtected(k, u.token.id);
    }
  }

  lemma {:induction false} AsciiBytes(s: string)
    requires ByteLevel(s) && Utf8.IsAscii(s)
    ensures CharBytes(s) == Utf8.Encode(s)
  {
    if |s| > 0 {
      assert ByteLevel(s[1..]) && CharBytes(s)[1..] == CharBytes(s[1..]);
      AsciiBytes(s[1..]);
      assert CharBytes(s)[0] == s[0] as int;
      assert CharBytes(s) == [CharBytes(s)[0]] + CharBytes(s)[1..];
    }
  }

  ghost predicate NoMisread(k: Tokenizer, units: seq<Unit>) {
    forall i :: 0 <= i < |units| ==> !Misread(k, units[i])
  }

  lemma {:induction false} UnitsDecode(k: Tokenizer, units: seq<Unit>)
    requires InverseVocabulary(k) && ProtectedNamed(k) && AllGenuine(k, units) && Known(k, units)
    ensures Decodable(k, Ids(k, units), false)
    ensures NoMisread(k, units) ==> DecodedBytes(k, Ids(k, units), false) == Source(k, units)
    ensures |DecodedBytes(k, Ids(k, units), false)| >= |Source(k, units)|
    ensures !NoMisread(k, units) ==> |DecodedBytes(k, Ids(k, units), false)| > |Source(k, units)|
  {
    hide InverseVocabulary, ProtectedNamed, Genuine, UnitSource, Misread, TokenBytes, TokenDecodable, Id;
    if |units| > 0 {
      var front, last := units[..|units| - 1], units[|units| - 1];
      UnitsDecode(k, front);
      UnitDecodes(k, last);
      IdInRange(k, last);
      assert Ids(k, units)[..|units| - 1] == Ids(k, front);
      assert forall i :: 0 <= i < |units| - 1 ==> units[i] == front[i];
    }
  }

  lemma IdInRange(k: Tokenizer, u: Unit)
    requires InverseVocabulary(k) && ProtectedNamed(k) && Genuine(k, u) && (u.Part? ==> u.text in k.vocab)
    ensures Id(k, u) < |k.idToToken|
  {
  }

  /** For every text that encodes: the ids always decode, and they decode to the text exactly
      when no merged part is a protected token with a character outside ASCII. */
  lemma {:induction false} RoundTrip(k: Tokenizer, t: CharTables, text: string)
    requires Valid(k) && Sound(t) && Encodable(k, t, text)
    ensures
      var ids := Ids(k, Units(k, t, text));
      && Decodable(k, ids, false)
      && (Utf8.Lossy(DecodedBytes(k, ids, false)) == text <==> NoMisread(k, Units(k, t, text)))
  {
    hide Sound, InverseVocabulary, ProtectedNamed, ByteTables, LongestFirst, Units, NoMisread, AllGenuine, Source,
         Known, Ids, Decodable, DecodedBytes, SegmentsFit;
    var units := Units(k, t, text);
    UnitsSource(k, t, text);
    UnitsDecode(k, units);
    var bytes := DecodedBytes(k, Ids(k, units), false);
    if NoMisread(k, units) {
      Utf8.LossyOfEncoded(text);
    } else {
      Utf8.LossyGrows(bytes);
    }
  }

  // ----- a condition on the vocabulary alone -----

  /** No protected token outside ASCII can come out of merging: none merges to itself. */
  ghost predicate SafeVocabulary(k: Tokenizer) {
    forall p :: p in k.protectedTokens && !Utf8.IsAscii(p.text) ==> Bpe.Bpe(k.merges, Chars(p.text)) != [p.text]
  }

  ghost predicate Stable(k: Tokenizer, u: Unit) {
    u.Part? ==> Bpe.Bpe(k.merges, Chars(u.text)) == [u.text]
  }

  ghost predicate AllStable(k: Tokenizer, units: seq<Unit>) {
    forall i :: 0 <= i < |units| ==> Stable(k, units[i])
  }

  lemma {:induction false} PiecesStable(k: Tokenizer, pieces: seq<string>)
    ensures AllStable(k, PiecesUnits(k, pieces))
  {
    hide Bpe.Bpe;
    if |pieces| > 0 {
      var encoded := ByteText(Utf8.Encode(pieces[0]));
      var parts := Bpe.Bpe(k.merges, Chars(encoded));
      forall i | 0 <= i < |parts|
        ensures Stable(k, Part(parts[i]))
      {
        Bpe.RerunPart(k.merges, encoded, i);
      }
      PiecesStable(k, pieces[1..]);
    }
  }

  /** Every merged part is what merging makes of its own characters. */
  lemma {:induction false} SegmentsStable(k: Tokenizer, t: CharTables, segments: seq<Segment>)
    requires Sound(t)
    ensures AllStable(k, SegmentsUnits(k, t, segments))
  {
    hide Sound, Stable;
    if |segments| > 0 {
      if segments[0].Gap? {
        PiecesStable(k, Pieces(t, segments[0].text));
      } else {
        assert Stable(k, Token(segments[0].token)) by { TokenStable(k, segments[0].token); }
      }
      SegmentsStable(k, t, segments[1..]);
    }
  }

  lemma TokenStable(k: Tokenizer, p: Protected)
    ensures Stable(k, Token(p))
  {
  }

  /** With a safe vocabulary every text that encodes decodes to itself. */
  lemma {:induction false} SafeRoundTrip(k: Tokenizer, t: CharTables, text: string)
    requires Valid(k) && Sound(t) && Encodable(k, t, text) && SafeVocabulary(k)
    ensures
      var ids := Ids(k, Units(k, t, text));
      Decodable(k, ids, false) && Utf8.Lossy(DecodedBytes(k, ids, false)) == text
  {
    hide Sound, ByteTables, LongestFirst, Ids, Decodable, DecodedBytes, SegmentsFit, InverseVocabulary, ProtectedNamed;
    var units := Units(k, t, text);
    ProtectedDistinct(k);
    SegmentsStable(k, t, Segments(k.protectedTokens, text));
    forall i | 0 <= i < |units|
      ensures !Misread(k, units[i])
    {
      StableNotMisread(k, units[i]);
    }
    RoundTrip(k, t, text);
  }

  lemma StableNotMisread(k: Tokenizer, u: Unit)
    requires InverseVocabulary(k) && ProtectedNamed(k) && SafeVocabulary(k) && Stable(k, u)
    ensures !Misread(k, u)
  {
    hide Bpe.Bpe, Utf8.IsAscii;
  }

  // ----- a vocabulary that is not safe -----

  const BYTE_DECODER: map<char, byte> := map c: char | ByteMaps.CharByte(c).Some? :: ByteMaps.CharByte(c).value

  const A_TILDE: string := "\U{C3}"
  const COPYRIGHT: string := "\U{A9}"
  const PAIR: string := "\U{C3}\U{A9}"

  /** Two byte-level characters, and a protected token that is their merge. */
  const CLASHING: Tokenizer := Tokenizer(
    map[A_TILDE := 0, COPYRIGHT := 1, PAIR := 2], [A_TILDE, COPYRIGHT, PAIR],
    map[(A_TILDE, COPYRIGHT) := 0], [Protected(PAIR, 2)], {}, {},
    seq(256, i requires 0 <= i < 256 => ByteMaps.ByteChar(i)), BYTE_DECODER, None, None, false, false)

  const E_ACUTE: string := "\U{E9}"

  lemma ClashingValid()
    ensures Valid(CLASHING)
  {
    assert InverseVocabulary(CLASHING) && ProtectedNamed(CLASHING) && LongestFirst(CLASHING.protectedTokens);
  }

  lemma EAcuteBytes()
    ensures Chars(ByteText(Utf8.Encode(E_ACUTE))) == [A_TILDE, COPYRIGHT]
  {
    assert E_ACUTE[1..] == [];
    assert Utf8.Encode(E_ACUTE) == [0xC3, 0xA9];
  }

  lemma EAcutePiece(t: CharTables)
    requires Sound(t)
    ensures PiecesUnits(CLASHING, Pieces(t, E_ACUTE)) == [Part(PAIR)]
  {
    hide Sound, PieceLen;
    PieceProgress(t, E_ACUTE);
    assert E_ACUTE[..1] == E_ACUTE && E_ACUTE[1..] == "";
    assert Pieces(t, E_ACUTE) == [E_ACUTE];
    EAcuteBytes();
    var parts := [A_TILDE, COPYRIGHT];
    assert Bpe.CanMerge(CLASHING.merges, parts, 0);
    Bpe.BpeStep(CLASHING.merges, parts, 0);
    assert A_TILDE + COPYRIGHT == PAIR;
    assert Bpe.MergeAt(parts, 0) == [PAIR];
    Bpe.BpeFinished(CLASHING.merges, [PAIR]);
    assert PiecesUnits(CLASHING, [E_ACUTE][1..]) == [];
  }

  /** This vocabulary encodes a text that does not come back. */
  lemma ClashingFails(t: CharTables)
    requires Sound(t)
    ensures Valid(CLASHING) && Encodable(CLASHING, t, E_ACUTE)
    ensures
      var ids := Ids(CLASHING, Units(CLASHING, t, E_ACUTE));
      ids == [2] && Decodable(CLASHING, ids, false) && Utf8.Lossy(DecodedBytes(CLASHING, ids, false)) != E_ACUTE
  {
    hide Sound, Pieces, PieceUnits;
    ClashingValid();
    EAcuteSegments(t);
    RoundTrip(CLASHING, t, E_ACUTE);
    assert Misread(CLASHING, Units(CLASHING, t, E_ACUTE)[0]);
  }

  lemma EAcuteSegments(t: CharTables)
    requires Sound(t) && Valid(CLASHING)
    ensures Units(CLASHING, t, E_ACUTE) == [Part(PAIR)] && Encodable(CLASHING, t, E_ACUTE)
  {
    hide Sound, PieceUnits, PiecesUnits, Pieces, PieceLen, ByteTables, InverseVocabulary, BYTE_DECODER, LongestFirst;
    ProtectedDistinct(CLASHING);
    EAcutePiece(t);
    EAcuteGap();
    var gap := Gap(E_ACUTE);
    assert SegmentsUnits(CLASHING, t, [gap][1..]) == [];
    assert SegmentFits(t, gap) by {
      EAcuteFits(t);
    }
  }

  lemma EAcuteGap()
    requires Distinct(CLASHING.protectedTokens)
    ensures Segments(CLASHING.protectedTokens, E_ACUTE) == [Gap(E_ACUTE)]
  {
    hide BYTE_DECODER, Utf8.Encode;
    var p := Protected(PAIR, 2);
    assert CLASHING.protectedTokens == [p] && [p][1..] == [];
    assert E_ACUTE[..1] == E_ACUTE && E_ACUTE[1..] == "";
    assert Find(E_ACUTE[1..], p) == None;
    assert NextSpecial([p], E_ACUTE) == 1;
  }

  lemma EAcuteFits(t: CharTables)
    requires Sound(t)
    ensures PiecesFit(Pieces(t, E_ACUTE))
  {
    hide Sound, PieceLen;
    PieceProgress(t, E_ACUTE);
    assert E_ACUTE[..1] == E_ACUTE && E_ACUTE[1..] == "";
    assert Utf8.Encode(E_ACUTE[1..]) == [];
  }
}
