/** UTF-8 as the Rust strings of the tokenizer use it: encoding, the strict decoding of
    `String::from_utf8`, and the lossy decoding of `String::from_utf8_lossy`
    (Unicode 15.0, section 3.9, Table 3-7). */
module Utf8 {
  import opened Prelude

  const REPLACEMENT: char := '\U{FFFD}'

  function EncodeChar(c: char): (bs: seq<byte>)
    ensures 1 <= |bs| <= 4
    ensures |bs| == 1 <==> c as int < 0x80
  {
    var n := c as int;
    if n < 0x80 then [n]
    else if n < 0x800 then [0xC0 + n / 64, 0x80 + n % 64]
    else if n < 0x10000 then [0xE0 + n / 4096, 0x80 + n / 64 % 64, 0x80 + n % 64]
    else [0xF0 + n / 262144, 0x80 + n / 4096 % 64, 0x80 + n / 64 % 64, 0x80 + n % 64]
  }

  function Encode(s: string): (bs: seq<byte>)
    ensures |bs| >= |s|
  {
    if |s| == 0 then [] else EncodeChar(s[0]) + Encode(s[1..])
  }

  function Bits(b: byte, tag: int): int { (b as int) - tag }

  predicate Continues(b: byte) { 0x80 <= b < 0xC0 }

  /** Whether `second` may follow the first byte of a three- or four-byte sequence. */
  predicate SecondFits(first: byte, second: byte) {
    Continues(second)
    && (first == 0xE0 ==> 0xA0 <= second) && (first == 0xED ==> second < 0xA0)
    && (first == 0xF0 ==> 0x90 <= second) && (first == 0xF4 ==> second < 0x90)
  }

  /** The character at the head of a byte string, or the ill-formed bytes to skip. */
  datatype Chunk = Valid(c: char, size: nat) | Invalid(size: nat)

  function Scan(bs: seq<byte>): (r: Chunk)
    requires |bs| > 0
    ensures 1 <= r.size <= |bs| && (r.Invalid? ==> r.size <= 3)
  {
    var first := bs[0];
    if first < 0x80 then Valid(first as char, 1)
    else if 0xC2 <= first < 0xE0 then
      if |bs| < 2 || !Continues(bs[1]) then Invalid(1)
      else Valid((Bits(first, 0xC0) * 64 + Bits(bs[1], 0x80)) as char, 2)
    else if 0xE0 <= first < 0xF0 then
      if |bs| < 2 || !SecondFits(first, bs[1]) then Invalid(1)
      else if |bs| < 3 || !Continues(bs[2]) then Invalid(2)
      else Valid((Bits(first, 0xE0) * 4096 + Bits(bs[1], 0x80) * 64 + Bits(bs[2], 0x80)) as char, 3)
    else if 0xF0 <= first < 0xF5 then
      if |bs| < 2 || !SecondFits(first, bs[1]) then Invalid(1)
      else if |bs| < 3 || !Continues(bs[2]) then Invalid(2)
      else if |bs| < 4 || !Continues(bs[3]) then Invalid(3)
      else Valid((Bits(first, 0xF0) * 262144 + Bits(bs[1], 0x80) * 4096 + Bits(bs[2], 0x80) * 64 + Bits(bs[3], 0x80)) as char, 4)
    else Invalid(1)
  }

  /** `String::from_utf8`. */
  function Strict(bs: seq<byte>): (r: Option<string>)
    decreases |bs|
  {
    if |bs| == 0 then Some("") else
    match Scan(bs)
    case Invalid(_) => None
    case Valid(c, n) =>
      match Strict(bs[n..])
      case None => None
      case Some(rest) => Some([c] + rest)
  }

  /** `String::from_utf8_lossy`: one replacement character for each maximal ill-formed run. */
  function Lossy(bs: seq<byte>): (s: string)
    decreases |bs|
  {
    if |bs| == 0 then "" else
    match Scan(bs)
    case Invalid(n) => [REPLACEMENT] + Lossy(bs[n..])
    case Valid(c, n) => [c] + Lossy(bs[n..])
  }

  /** The shortest form that holds the number: the first byte tells the length, and every byte after
      it carries six bits, highest first. */
  lemma EncodedValue(c: char)
    ensures
      var n, bs := c as int, EncodeChar(c);
      && |bs| == (if n < 0x80 then 1 else if n < 0x800 then 2 else if n < 0x10000 then 3 else 4)
      && (forall i :: 0 < i < |bs| ==> 0x80 <= bs[i] < 0xC0)
      && (|bs| == 1 ==> n == bs[0])
      && (|bs| == 2 ==> 0xC0 <= bs[0] < 0xE0 && n == Digit(bs, 0, 0xC0) * 0x40 + Digit(bs, 1, 0x80))
      && (|bs| == 3 ==>
            0xE0 <= bs[0] < 0xF0
            && n == Digit(bs, 0, 0xE0) * 0x1000 + Digit(bs, 1, 0x80) * 0x40 + Digit(bs, 2, 0x80))
      && (|bs| == 4 ==>
            0xF0 <= bs[0] < 0xF8
            && n == Digit(bs, 0, 0xF0) * 0x40000 + Digit(bs, 1, 0x80) * 0x1000 + Digit(bs, 2, 0x80) * 0x40
                    + Digit(bs, 3, 0x80))
  {
    SplitDigits(c as int);
  }

  /** A byte without the bits that mark its place. */
  function Digit(bs: seq<byte>, i: nat, mark: int): int
    requires i < |bs|
  {
    bs[i] as int - mark
  }

  lemma ScanOfEncoded(c: char, rest: seq<byte>)
    ensures Scan(EncodeChar(c) + rest) == Valid(c, |EncodeChar(c)|)
  {
    hide Scan;
    var n := c as int;
    if n < 0x80 {
      ScanOne(n, rest);
    } else if n < 0x800 {
      ScanTwo(n / 64, n % 64, rest);
    } else if n < 0x10000 {
      SplitDigits(n);
      ScanThree(n / 4096, n / 64 % 64, n % 64, rest);
    } else {
      SplitDigits(n);
      ScanFour(n / 262144, n / 4096 % 64, n / 64 % 64, n % 64, rest);
    }
  }

  lemma SplitDigits(n: nat)
    ensures n == n / 4096 * 4096 + n / 64 % 64 * 64 + n % 64
    ensures n / 4096 == n / 262144 * 64 + n / 4096 % 64
  {
    assert n == n / 64 * 64 + n % 64;
    assert n / 64 == n / 4096 * 64 + n / 64 % 64;
  }

  lemma ScanOne(a: nat, rest: seq<byte>)
    requires a < 0x80
    ensures Scan([a] + rest) == Valid(a as char, 1)
  {
  }

  lemma ScanTwo(a: nat, b: nat, rest: seq<byte>)
    requires 2 <= a < 0x20 && b < 64
    ensures Scan([0xC0 + a, 0x80 + b] + rest) == Valid((a * 64 + b) as char, 2)
  {
  }

  lemma ScanThree(a: nat, b: nat, c: nat, rest: seq<byte>)
    requires a < 0x10 && b < 64 && c < 64
    requires 0x800 <= a * 4096 + b * 64 + c && !(0xD800 <= a * 4096 + b * 64 + c < 0xE000)
    ensures Scan([0xE0 + a, 0x80 + b, 0x80 + c] + rest) == Valid((a * 4096 + b * 64 + c) as char, 3)
  {
  }

  lemma ScanFour(a: nat, b: nat, c: nat, d: nat, rest: seq<byte>)
    requires b < 64 && c < 64 && d < 64
    requires 0x10000 <= a * 262144 + b * 4096 + c * 64 + d < 0x110000
    ensures Scan([0xF0 + a, 0x80 + b, 0x80 + c, 0x80 + d] + rest)
            == Valid((a * 262144 + b * 4096 + c * 64 + d) as char, 4)
  {
  }

  lemma EncodedOfScan(bs: seq<byte>)
    requires |bs| > 0 && Scan(bs).Valid?
    ensures EncodeChar(Scan(bs).c) == bs[..Scan(bs).size]
  {
    hide EncodeChar;
    if bs[0] < 0x80 {
      assert EncodeChar(bs[0] as char) == [bs[0]] by { EncodeOne(bs[0]); }
    } else if bs[0] < 0xE0 {
      EncodeTwo(Bits(bs[0], 0xC0), Bits(bs[1], 0x80));
      assert bs[..2] == [bs[0], bs[1]];
    } else if bs[0] < 0xF0 {
      EncodeThree(Bits(bs[0], 0xE0), Bits(bs[1], 0x80), Bits(bs[2], 0x80));
      assert bs[..3] == [bs[0], bs[1], bs[2]];
    } else {
      EncodeFour(Bits(bs[0], 0xF0), Bits(bs[1], 0x80), Bits(bs[2], 0x80), Bits(bs[3], 0x80));
      assert bs[..4] == [bs[0], bs[1], bs[2], bs[3]];
    }
  }

  lemma EncodeOne(a: nat)
    requires a < 0x80
    ensures EncodeChar(a as char) == [a]
  {
  }

  lemma EncodeTwo(a: nat, b: nat)
    requires 2 <= a < 0x20 && b < 64
    ensures EncodeChar((a * 64 + b) as char) == [0xC0 + a, 0x80 + b]
  {
  }

  lemma EncodeThree(a: nat, b: nat, c: nat)
    requires a < 0x10 && b < 64 && c < 64
    requires 0x800 <= a * 4096 + b * 64 + c && !(0xD800 <= a * 4096 + b * 64 + c < 0xE000)
    ensures EncodeChar((a * 4096 + b * 64 + c) as char) == [0xE0 + a, 0x80 + b, 0x80 + c]
  {
    assert (a * 4096 + b * 64 + c) / 64 == a * 64 + b;
  }

  lemma EncodeFour(a: nat, b: nat, c: nat, d: nat)
    requires b < 64 && c < 64 && d < 64
    requires 0x10000 <= a * 262144 + b * 4096 + c * 64 + d < 0x110000
    ensures EncodeChar((a * 262144 + b * 4096 + c * 64 + d) as char) == [0xF0 + a, 0x80 + b, 0x80 + c, 0x80 + d]
  {
    var n := a * 262144 + b * 4096 + c * 64 + d;
    assert n / 64 == a * 4096 + b * 64 + c && n / 4096 == a * 64 + b;
  }

  lemma {:induction false} EncodeConcat(a: string, b: string)
    ensures Encode(a + b) == Encode(a) + Encode(b)
  {
    hide EncodeChar;
    if |a| == 0 {
      assert a + b == b;
    } else {
      EncodeConcat(a[1..], b);
      assert (a + b)[1..] == a[1..] + b && (a + b)[0] == a[0];
      Associate(EncodeChar(a[0]), Encode(a[1..]), Encode(b));
    }
  }

  lemma {:induction false} LossyOfEncoded(s: string)
    ensures Lossy(Encode(s)) == s
  {
    hide Scan, EncodeChar;
    if |s| > 0 {
      ScanOfEncoded(s[0], Encode(s[1..]));
      LossyOfEncoded(s[1..]);
      assert Encode(s)[|EncodeChar(s[0])|..] == Encode(s[1..]);
    }
  }

  /** A byte string is accepted exactly when it encodes some string, which is then the answer. */
  lemma {:induction false} StrictDecodes(bs: seq<byte>, s: string)
    ensures Strict(bs) == Some(s) <==> bs == Encode(s)
    decreases |bs|
  {
    hide Scan, EncodeChar;
    if |bs| == 0 {
      return;
    }
    if Strict(bs) == Some(s) {
      StrictDecodes(bs[Scan(bs).size..], s[1..]);
      EncodedOfScan(bs);
      assert bs == bs[..Scan(bs).size] + bs[Scan(bs).size..];
    }
    if bs == Encode(s) {
      ScanOfEncoded(s[0], Encode(s[1..]));
      assert bs[|EncodeChar(s[0])|..] == Encode(s[1..]);
      StrictDecodes(Encode(s[1..]), s[1..]);
      assert s == [s[0]] + s[1..];
    }
  }

  /** Replacing ill-formed bytes never makes the text shorter. */
  lemma {:induction false} LossyGrows(bs: seq<byte>)
    ensures |Encode(Lossy(bs))| >= |bs|
    decreases |bs|
  {
    hide Scan;
    if |bs| > 0 {
      var n := Scan(bs).size;
      LossyGrows(bs[n..]);
      assert Lossy(bs)[1..] == Lossy(bs[n..]);
      if Scan(bs).Valid? {
        EncodedOfScan(bs);
      }
    }
  }

  /** Comparing encoded strings for a common start is comparing their characters. */
  lemma {:induction false} EncodedPrefix(p: string, t: string)
    ensures Encode(p) <= Encode(t) <==> p <= t
  {
    hide Scan, EncodeChar;
    if p <= t {
      EncodeConcat(p, t[|p|..]);
      assert t == p + t[|p|..];
    }
    if Encode(p) <= Encode(t) && |p| > 0 {
      ScanOfEncoded(p[0], Encode(p[1..]) + Encode(t)[|Encode(p)|..]);
      ScanOfEncoded(t[0], Encode(t[1..]));
      assert Encode(t) == EncodeChar(p[0]) + (Encode(p[1..]) + Encode(t)[|Encode(p)|..]);
      assert Encode(t)[|EncodeChar(t[0])|..] == Encode(t[1..]);
      assert Encode(t[1..]) == Encode(p[1..]) + Encode(t)[|Encode(p)|..];
      EncodedPrefix(p[1..], t[1..]);
    }
  }

  predicate IsAscii(s: string) { forall i :: 0 <= i < |s| ==> s[i] as int < 0x80 }

  lemma {:induction false} EncodedLength(s: string)
    ensures |Encode(s)| == |s| <==> IsAscii(s)
  {
    hide EncodeChar;
    if |s| > 0 {
      EncodedLength(s[1..]);
      assert s == [s[0]] + s[1..];
    }
  }

  // ----- lossy decoding, exactly -----

  /** The bytes begin the encoding of some character. */
  ghost predicate Starts(p: seq<byte>) {
    exists c: char :: p <= EncodeChar(c)
  }

  /** No character is encoded at the head of `bs`, and its first `n` bytes are the longest that could still begin one,
      or a single byte that could not. */
  ghost predicate IllFormed(bs: seq<byte>, n: nat) {
    && 1 <= n <= |bs| && (forall c: char :: !(EncodeChar(c) <= bs))
    && (n > 1 ==> Starts(bs[..n])) && (n < |bs| ==> !Starts(bs[..n + 1]))
  }

  /** Every encoded character is kept, every ill-formed run becomes one replacement character. */
  ghost predicate IsLossy(bs: seq<byte>, s: string)
    decreases |bs|
  {
    if |bs| == 0 then s == "" else
    && |s| > 0
    && ((EncodeChar(s[0]) <= bs && IsLossy(bs[|EncodeChar(s[0])|..], s[1..]))
        || (s[0] == '\U{FFFD}' && exists n: nat :: IllFormed(bs, n) && IsLossy(bs[n..], s[1..])))
  }

  /** A byte string whose scan fails is filled up to a character where the failure was its end. */
  lemma PrefixStarts(bs: seq<byte>)
    requires |bs| > 0 && Scan(bs).Invalid? && Scan(bs).size > 1
    ensures Starts(bs[..Scan(bs).size])
  {
    var n := Scan(bs).size;
    var filled := if bs[0] < 0xF0 then [bs[0], bs[1], 0x80]
                  else if n == 2 then [bs[0], bs[1], 0x80, 0x80] else [bs[0], bs[1], bs[2], 0x80];
    assert Scan(filled).Valid? && Scan(filled).size == |filled|;
    EncodedOfScan(filled);
    assert filled[..|filled|] == filled;
    assert bs[..n] == filled[..n];
    assert bs[..n] <= EncodeChar(Scan(filled).c);
  }

  /** And no character begins with a byte more. */
  lemma LongerStartsNot(bs: seq<byte>, c: char)
    requires |bs| > 0 && Scan(bs).Invalid?
    ensures !(EncodeChar(c) <= bs)
    ensures Scan(bs).size < |bs| ==> !(bs[..Scan(bs).size + 1] <= EncodeChar(c))
  {
    hide EncodeChar;
    var e, n := EncodeChar(c), Scan(bs).size;
    ScanOfEncoded(c, []);
    assert e + [] == e;
  }

  lemma ScanIllFormed(bs: seq<byte>)
    requires |bs| > 0 && Scan(bs).Invalid?
    ensures IllFormed(bs, Scan(bs).size)
  {
    hide Scan, EncodeChar;
    var n := Scan(bs).size;
    if n > 1 {
      PrefixStarts(bs);
    }
    forall c: char
      ensures !(EncodeChar(c) <= bs) && (n < |bs| ==> !(bs[..n + 1] <= EncodeChar(c)))
    {
      LongerStartsNot(bs, c);
    }
  }

  lemma IllFormedUnique(bs: seq<byte>, n: nat, m: nat)
    requires IllFormed(bs, n) && IllFormed(bs, m) && n <= m
    ensures n == m
  {
    hide Starts, EncodeChar;
    StartsShorter(bs, if n < m then n + 1 else n, m);
  }

  lemma StartsShorter(bs: seq<byte>, i: nat, j: nat)
    requires i <= j <= |bs|
    ensures Starts(bs[..j]) ==> Starts(bs[..i])
  {
    hide EncodeChar;
    assert bs[..i] <= bs[..j];
  }

  /** Lossy decoding keeps what is encoded and replaces each longest ill-formed run by one character. */
  lemma {:induction false} LossyExact(bs: seq<byte>, s: string)
    ensures IsLossy(bs, s) <==> s == Lossy(bs)
    decreases |bs|
  {
    hide Scan, EncodeChar, IllFormed;
    if |bs| > 0 {
      var n := Scan(bs).size;
      if |s| > 0 {
        LossyExact(bs[n..], s[1..]);
        assert s == [s[0]] + s[1..];
        assert Lossy(bs)[1..] == Lossy(bs[n..]);
        if EncodeChar(s[0]) <= bs {
          ScanOfEncoded(s[0], bs[|EncodeChar(s[0])|..]);
          assert bs == EncodeChar(s[0]) + bs[|EncodeChar(s[0])|..];
        }
        if Scan(bs).Invalid? {
          ScanIllFormed(bs);
          InvalidHead(bs, s);
        } else {
          EncodedOfScan(bs);
          ValidHead(bs);
        }
      }
    }
  }

  lemma InvalidHead(bs: seq<byte>, s: string)
    requires |bs| > 0 && Scan(bs).Invalid?
    ensures forall n: nat :: IllFormed(bs, n) <==> n == Scan(bs).size
  {
    hide Scan, EncodeChar, IllFormed;
    ScanIllFormed(bs);
    forall n: nat | IllFormed(bs, n)
      ensures n == Scan(bs).size
    {
      if n <= Scan(bs).size {
        IllFormedUnique(bs, n, Scan(bs).size);
      } else {
        IllFormedUnique(bs, Scan(bs).size, n);
      }
    }
  }

  lemma ValidHead(bs: seq<byte>)
    requires |bs| > 0 && Scan(bs).Valid?
    ensures forall n: nat :: !IllFormed(bs, n)
  {
    hide Scan, EncodeChar;
    EncodedOfScan(bs);
    assert EncodeChar(Scan(bs).c) <= bs;
  }
}
