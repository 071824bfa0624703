/** The GPT-2 correspondence between bytes and printable characters. */
module ByteMaps {
  import opened Prelude

  /** Bytes that stand for themselves. */
  predicate Printable(b: int) {
    0x21 <= b <= 0x7E || 0xA1 <= b <= 0xAC || 0xAE <= b <= 0xFF
  }

  /** The character of a byte: itself, or one of 256..323 in byte order. */
  function ByteChar(b: byte): (c: char)
    ensures Printable(b) ==> c as int == b
    ensures !Printable(b) ==> 0x100 <= c as int < 0x144
  {
    if Printable(b) then b as char else (0x100 + Skipped(b)) as char
  }

  /** How many bytes below `n` do not stand for themselves. */
  function Skipped(n: nat): (k: nat)
    requires n <= 256
    ensures k <= n
    ensures k == if n <= 0x21 then n else if n <= 0x7F then 0x21 else if n <= 0xA1 then n - 0x5E
                 else if n <= 0xAD then 0x43 else 0x44
  {
    if n == 0 then 0 else Skipped(n - 1) + if Printable(n - 1) then 0 else 1
  }

  /** The inverse correspondence. */
  function CharByte(c: char): (r: Option<byte>) {
    var n := c as int;
    if n < 0x100 then if Printable(n) then Some(n) else None
    else if n < 0x121 then Some(n - 0x100)
    else if n < 0x143 then Some(n - 0xA2)
    else if n == 0x143 then Some(0xAD)
    else None
  }

  lemma CharByteInverse(c: char, b: byte)
    ensures CharByte(c) == Some(b) <==> ByteChar(b) == c
  {
  }

  /** The visible characters of Latin-1 stand for themselves; the other bytes, in their order, take the
      characters from 256 on, leaving none out. */
  lemma ByteCharsPinned(b: byte)
    ensures '!' <= b as char <= '~' || '\U{A1}' <= b as char <= '\U{AC}' || '\U{AE}' <= b as char <= '\U{FF}'
            <==> ByteChar(b) == b as char
    ensures ByteChar(b) != b as char ==> 0x100 <= ByteChar(b) as int < 0x144
    ensures forall a: byte :: a < b && ByteChar(a) != a as char && ByteChar(b) != b as char ==> ByteChar(a) < ByteChar(b)
  {
  }

  lemma ByteCharsFill(c: char)
    requires 0x100 <= c as int < 0x144
    ensures exists a: byte :: ByteChar(a) == c
  {
    CharByteInverse(c, CharByte(c).value);
  }

  /** Builds both tables, in the order the bytes are first listed and then filled in. */
  method BuildByteMaps() returns (encoder: array<char>, decoder: map<char, byte>)
    ensures fresh(encoder) && encoder.Length == 256
    ensures forall b: byte :: encoder[b] == ByteChar(b)
    ensures forall c: char, b: byte :: (c in decoder && decoder[c] == b) <==> CharByte(c) == Some(b)
  {
    var bs, cs := ListBytes();
    encoder := new char[256](_ => '\0');
    decoder := map[];
    for i := 0 to |bs|
      invariant forall j :: 0 <= j < i ==> encoder[bs[j]] == ByteChar(bs[j])
      invariant forall j :: 0 <= j < i ==> ByteChar(bs[j]) in decoder
      invariant forall c :: c in decoder ==> CharByte(c) == Some(decoder[c])
    {
      CharByteInverse(cs[i] as char, bs[i]);
      encoder[bs[i]] := cs[i] as char;
      decoder := decoder[cs[i] as char := bs[i]];
    }
    TablesComplete(bs, encoder[..], decoder);
  }

  lemma TablesComplete(bs: seq<byte>, encoder: seq<char>, decoder: map<char, byte>)
    requires |encoder| == 256
    requires forall b: byte :: b in bs
    requires forall j :: 0 <= j < |bs| ==> encoder[bs[j]] == ByteChar(bs[j]) && ByteChar(bs[j]) in decoder
    requires forall c :: c in decoder ==> CharByte(c) == Some(decoder[c])
    ensures forall b: byte :: encoder[b] == ByteChar(b)
    ensures forall c: char, b: byte :: (c in decoder && decoder[c] == b) <==> CharByte(c) == Some(b)
  {
    hide ByteChar, CharByte;
    forall b: byte
      ensures encoder[b] == ByteChar(b)
    {
      assert b in bs;
      var j :| 0 <= j < |bs| && bs[j] == b;
    }
    forall c: char, b: byte
      ensures (c in decoder && decoder[c] == b) <==> CharByte(c) == Some(b)
    {
      CharByteInverse(c, b);
      assert b in bs;
    }
  }

  function Range(first: nat, count: nat): (bs: seq<byte>)
    requires first + count <= 256
  {
    seq(count, i requires 0 <= i < count => first + i)
  }

  const SELF_STANDING: seq<byte> := Range(0x21, 0x5E) + Range(0xA1, 0xC) + Range(0xAE, 0x52)

  lemma SelfStandingBytes()
    ensures forall k: byte :: k in SELF_STANDING <==> Printable(k)
    ensures forall i :: 0 <= i < |SELF_STANDING| ==> Printable(SELF_STANDING[i])
  {
    forall k: byte | Printable(k)
      ensures k in SELF_STANDING
    {
      assert SELF_STANDING[if k <= 0x7E then k - 0x21 else if k <= 0xAC then k - 0x43 else k - 0x44] == k;
    }
  }

  /** The bytes below `n` and the self-standing ones, each with its character. */
  ghost predicate Listed(bs: seq<byte>, cs: seq<nat>, n: nat) {
    && |bs| == |cs| && (forall i :: 0 <= i < |bs| ==> cs[i] < 0x144 && cs[i] as char == ByteChar(bs[i]))
    && (forall k: byte :: k in bs <==> k < n || Printable(k))
  }

  lemma SelfStandingListed(cs: seq<nat>)
    requires |cs| == |SELF_STANDING| && forall i :: 0 <= i < |cs| ==> cs[i] == SELF_STANDING[i]
    ensures Listed(SELF_STANDING, cs, 0)
  {
    hide SELF_STANDING, Skipped;
    SelfStandingBytes();
  }

  lemma ListedNext(bs: seq<byte>, cs: seq<nat>, b: byte)
    requires Listed(bs, cs, b)
    ensures b in bs <==> Printable(b)
    ensures b in bs ==> Listed(bs, cs, b + 1)
    ensures b !in bs ==> Listed(bs + [b], cs + [0x100 + Skipped(b)], b + 1)
  {
    hide Skipped;
    if b !in bs {
      var more := bs + [b];
      forall k: byte
        ensures k in more <==> k < b + 1 || Printable(k)
      {
        assert k in more <==> k in bs || k == b;
      }
    }
  }

  /** The self-standing bytes first, then the others with characters from 256 upwards. */
  method ListBytes() returns (bs: seq<byte>, cs: seq<nat>)
    ensures |bs| == |cs| && forall b: byte :: b in bs
    ensures forall i :: 0 <= i < |bs| ==> cs[i] < 0x144 && cs[i] as char == ByteChar(bs[i])
  {
    hide SELF_STANDING, ByteChar, Printable;
    bs := SELF_STANDING;
    cs := seq(|bs|, i requires 0 <= i < |bs| => bs[i]);
    SelfStandingListed(cs);
    var next := 0;
    for b := 0 to 256
      invariant Listed(bs, cs, b) && next == Skipped(b)
    {
      ListedNext(bs, cs, b);
      if b !in bs {
        bs := bs + [b];
        cs := cs + [0x100 + next];
        next := next + 1;
      }
    }
  }
}
