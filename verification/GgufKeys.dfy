/** Metadata keys, as the byte-by-byte check sees them and as they are written: segments joined by dots. */
module GgufKeys {
  import opened Prelude
  import opened Gguf

  /** Lower-case letters, digits and underscores, not starting with an underscore. */
  ghost predicate IsSegment(s: seq<byte>) {
    && |s| > 0 && s[0] != 0x5F
    && forall i :: 0 <= i < |s| ==> 0x61 <= s[i] <= 0x7A || 0x30 <= s[i] <= 0x39 || s[i] == 0x5F
  }

  ghost predicate AllSegments(segments: seq<seq<byte>>) {
    forall i :: 0 <= i < |segments| ==> IsSegment(segments[i])
  }

  function Dotted(segments: seq<seq<byte>>): (key: seq<byte>)
    requires |segments| > 0
  {
    if |segments| == 1 then segments[0] else segments[0] + [0x2E] + Dotted(segments[1..])
  }

  ghost predicate ValidBytes(key: seq<byte>) {
    |key| > 0 && forall i :: 0 <= i < |key| ==> ValidKeyByte(key, i)
  }

  lemma SegmentBytes(s: seq<byte>)
    requires IsSegment(s)
    ensures ValidBytes(s)
  {
  }

  lemma JoinedBytes(s: seq<byte>, rest: seq<byte>)
    requires IsSegment(s) && ValidBytes(rest)
    ensures ValidBytes(s + [0x2E] + rest)
  {
    var key := s + [0x2E] + rest;
    forall i | 0 <= i < |key|
      ensures ValidKeyByte(key, i)
    {
      if i < |s| {
        assert key[i] == s[i] && (i > 0 ==> key[i - 1] == s[i - 1]);
      } else if i > |s| {
        var j := i - |s| - 1;
        assert ValidKeyByte(rest, j);
        assert key[i] == rest[j] && key[i - 1] == if j == 0 then 0x2E else rest[j - 1];
      }
    }
  }

  lemma {:induction false} DottedBytes(segments: seq<seq<byte>>)
    requires |segments| > 0 && AllSegments(segments)
    ensures ValidBytes(Dotted(segments))
  {
    hide IsSegment, ValidBytes;
    if |segments| == 1 {
      SegmentBytes(segments[0]);
    } else {
      DottedBytes(segments[1..]);
      JoinedBytes(segments[0], Dotted(segments[1..]));
    }
  }

  function FirstDot(key: seq<byte>): (n: nat)
    ensures n <= |key| && (n < |key| ==> key[n] == 0x2E)
    ensures forall i :: 0 <= i < n ==> key[i] != 0x2E
  {
    if |key| == 0 || key[0] == 0x2E then 0 else 1 + FirstDot(key[1..])
  }

  lemma HeadSegment(key: seq<byte>, n: nat)
    requires ValidBytes(key) && 0 < n <= |key| && forall i :: 0 <= i < n ==> key[i] != 0x2E
    ensures IsSegment(key[..n])
  {
    assert ValidKeyByte(key, 0);
    forall i | 0 <= i < n
      ensures 0x61 <= key[i] <= 0x7A || 0x30 <= key[i] <= 0x39 || key[i] == 0x5F
    {
      assert ValidKeyByte(key, i);
    }
  }

  lemma TailBytes(key: seq<byte>, n: nat)
    requires ValidBytes(key) && n < |key| && key[n] == 0x2E
    ensures 0 < n < |key| - 1 && ValidBytes(key[n + 1..])
  {
    assert ValidKeyByte(key, n);
    var rest := key[n + 1..];
    forall j | 0 <= j < |rest|
      ensures ValidKeyByte(rest, j)
    {
      assert ValidKeyByte(key, n + 1 + j);
      assert rest[j] == key[n + 1 + j] && (j > 0 ==> rest[j - 1] == key[n + j]);
    }
  }

  /** Up to its first dot a key is a segment, and what follows the dot is a key again. */
  lemma FirstSegment(key: seq<byte>)
    requires ValidBytes(key)
    ensures IsSegment(key[..FirstDot(key)])
    ensures FirstDot(key) < |key| ==>
      ValidBytes(key[FirstDot(key) + 1..]) && key == key[..FirstDot(key)] + [0x2E] + key[FirstDot(key) + 1..]
  {
    hide FirstDot, ValidBytes, IsSegment;
    var n := FirstDot(key);
    if n < |key| {
      TailBytes(key, n);
      assert key == key[..n] + [key[n]] + key[n + 1..];
    } else {
      NotEmpty(key);
    }
    HeadSegment(key, n);
  }

  lemma NotEmpty(key: seq<byte>)
    requires ValidBytes(key)
    ensures |key| > 0
  {
  }

  lemma {:induction false} BytesDotted(key: seq<byte>) returns (segments: seq<seq<byte>>)
    requires ValidBytes(key)
    ensures |segments| > 0 && AllSegments(segments) && Dotted(segments) == key
    decreases |key|
  {
    hide IsSegment, ValidBytes, FirstDot;
    FirstSegment(key);
    var n := FirstDot(key);
    if n == |key| {
      assert key[..n] == key;
      segments := [key];
    } else {
      var rest := BytesDotted(key[n + 1..]);
      segments := [key[..n]] + rest;
      assert segments[1..] == rest;
    }
  }

  /** The check accepts exactly the keys that are segments joined by dots. */
  lemma {:induction false} KeyIsDotted(key: seq<byte>)
    ensures ValidKey(key) <==>
              |key| <= 65535 && exists segments :: |segments| > 0 && AllSegments(segments) && Dotted(segments) == key
  {
    hide AllSegments, Dotted, ValidKeyByte;
    if ValidKey(key) {
      var segments := BytesDotted(key);
    }
    forall segments | |segments| > 0 && AllSegments(segments) && Dotted(segments) == key
      ensures ValidBytes(key)
    {
      DottedBytes(segments);
    }
  }
}
