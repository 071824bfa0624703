/** Cutting a text at protected tokens: the longest token where one starts, ordinary text up to
    the next place where one does. */
module Segmentation {
  import opened Prelude
  import opened Parts
  import Utf8

  datatype Protected = Protected(text: string, id: nat)

  datatype Segment = Special(token: Protected) | Gap(text: string)
  {
    function Text(): string { if Special? then token.text else text }
  }

  predicate StartsHere(p: Protected, text: string) { p.text <= text }

  /** Tokens are nonempty and no two share their text. */
  ghost predicate Distinct(tokens: seq<Protected>) {
    (forall p :: p in tokens ==> |p.text| > 0)
    && forall p, q :: p in tokens && q in tokens && p.text == q.text ==> p == q
  }

  /** Longest encoding first, as the tokenizer sorts them; ties in any order. */
  ghost predicate LongestFirst(tokens: seq<Protected>) {
    forall i, j :: 0 <= i < j < |tokens| ==> |Utf8.Encode(tokens[j].text)| <= |Utf8.Encode(tokens[i].text)|
  }

  // ----- as the source searches -----

  /** `find_map`: the first token of the list that starts the text. */
  function MatchSpecial(tokens: seq<Protected>, text: string): (r: Option<Protected>)
    ensures r.Some? ==> r.value in tokens && StartsHere(r.value, text)
    ensures r.None? ==> forall p :: p in tokens ==> !StartsHere(p, text)
  {
    if |tokens| == 0 then None
    else if StartsHere(tokens[0], text) then Some(tokens[0])
    else MatchSpecial(tokens[1..], text)
  }

  /** `str::find`: the first place where the token starts. */
  function Find(text: string, p: Protected): (r: Option<nat>)
    requires |p.text| > 0
    ensures r.Some? ==> r.value < |text| && StartsHere(p, text[r.value..])
    ensures forall i :: 0 <= i < |text| && (r.None? || i < r.value) ==> !StartsHere(p, text[i..])
  {
    if |text| == 0 then None
    else if StartsHere(p, text) then assert text[0..] == text; Some(0)
    else
      assert text[0..] == text;
      assert forall i :: 0 < i < |text| ==> text[i..] == text[1..][i - 1..];
      match Find(text[1..], p)
      case None => None
      case Some(i) => Some(i + 1)
  }

  /** `filter_map(..).min().unwrap_or(text.len())`. */
  function NextSpecial(tokens: seq<Protected>, text: string): (n: nat)
    requires forall p :: p in tokens ==> |p.text| > 0
    ensures n <= |text|
  {
    if |tokens| == 0 then |text|
    else
      var n := NextSpecial(tokens[1..], text);
      match Find(text, tokens[0])
      case None => n
      case Some(i) => if i < n then i else n
  }

  lemma {:induction false} NextSpecialFirst(tokens: seq<Protected>, text: string)
    requires forall p :: p in tokens ==> |p.text| > 0
    ensures var n := NextSpecial(tokens, text);
      && (n < |text| ==> exists p :: p in tokens && StartsHere(p, text[n..]))
      && forall p, i :: p in tokens && 0 <= i < n ==> !StartsHere(p, text[i..])
  {
    hide StartsHere;
    if |tokens| > 0 {
      NextSpecialFirst(tokens[1..], text);
      var n := NextSpecial(tokens, text);
      if n < |text| && n == NextSpecial(tokens[1..], text) {
        var p :| p in tokens[1..] && StartsHere(p, text[n..]);
        assert p in tokens;
      }
      forall p, i | p in tokens && 0 <= i < n
        ensures !StartsHere(p, text[i..])
      {
        assert p == tokens[0] || p in tokens[1..];
      }
    }
  }

  ghost function Segments(tokens: seq<Protected>, text: string): (segments: seq<Segment>)
    requires Distinct(tokens)
    decreases |text|
  {
    if |text| == 0 then []
    else match MatchSpecial(tokens, text)
      case Some(p) => [Special(p)] + Segments(tokens, text[|p.text|..])
      case None =>
        GapNonEmpty(tokens, text);
        var n := NextSpecial(tokens, text);
        [Gap(text[..n])] + Segments(tokens, text[n..])
  }

  lemma GapNonEmpty(tokens: seq<Protected>, text: string)
    requires Distinct(tokens) && |text| > 0 && MatchSpecial(tokens, text).None?
    ensures NextSpecial(tokens, text) > 0
  {
    NextSpecialFirst(tokens, text);
    assert text[0..] == text;
  }

  // ----- what a segmentation is -----

  ghost predicate SomeStarts(tokens: set<Protected>, text: string) {
    exists p :: p in tokens && StartsHere(p, text)
  }

  ghost predicate IsLongest(tokens: set<Protected>, p: Protected, text: string) {
    p in tokens && StartsHere(p, text)
    && forall q :: q in tokens && StartsHere(q, text) ==> |q.text| <= |p.text|
  }

  ghost predicate IsGap(tokens: set<Protected>, gap: string, text: string) {
    && 0 < |gap| && gap <= text
    && (forall i :: 0 <= i < |gap| ==> !SomeStarts(tokens, text[i..]))
    && (|gap| < |text| ==> SomeStarts(tokens, text[|gap|..]))
  }

  /** Every special is the longest token at its place; no token starts inside a gap, and a gap
      ends only where a token starts or the text ends. Nothing here depends on any order. */
  ghost predicate IsSegmentation(tokens: set<Protected>, text: string, segments: seq<Segment>)
    decreases |segments|
  {
    if |segments| == 0 then text == ""
    else
      var s := segments[0];
      && text != "" && s.Text() <= text
      && (if s.Special? then IsLongest(tokens, s.token, text) else IsGap(tokens, s.text, text))
      && IsSegmentation(tokens, text[|s.Text()|..], segments[1..])
  }

  ghost predicate DistinctSet(tokens: set<Protected>) {
    (forall p :: p in tokens ==> |p.text| > 0)
    && forall p, q :: p in tokens && q in tokens && p.text == q.text ==> p == q
  }

  function Elements(tokens: seq<Protected>): set<Protected> { set p | p in tokens }

  lemma LongerPrefix(a: string, b: string, text: string)
    requires a <= text && b <= text && |Utf8.Encode(b)| <= |Utf8.Encode(a)|
    ensures |b| <= |a|
  {
    if |a| < |b| {
      assert b == a + b[|a|..];
      Utf8.EncodeConcat(a, b[|a|..]);
    }
  }

  /** The first match in a list sorted by encoded length is the longest match. */
  lemma {:induction false} FirstIsLongest(tokens: seq<Protected>, text: string)
    requires LongestFirst(tokens) && MatchSpecial(tokens, text).Some?
    ensures IsLongest(Elements(tokens), MatchSpecial(tokens, text).value, text)
  {
    var p := MatchSpecial(tokens, text).value;
    if StartsHere(tokens[0], text) {
      forall q | q in tokens && StartsHere(q, text)
        ensures |q.text| <= |p.text|
      {
        LongerPrefix(p.text, q.text, text);
      }
    } else {
      FirstIsLongest(tokens[1..], text);
      forall q | q in tokens && StartsHere(q, text)
        ensures |q.text| <= |p.text|
      {
        assert q in Elements(tokens[1..]);
      }
    }
  }

  lemma {:induction false} NextIsGap(tokens: seq<Protected>, text: string)
    requires Distinct(tokens) && |text| > 0 && MatchSpecial(tokens, text).None?
    ensures IsGap(Elements(tokens), text[..NextSpecial(tokens, text)], text)
  {
    GapNonEmpty(tokens, text);
    NextSpecialFirst(tokens, text);
  }

  /** What the source computes is a leftmost-longest segmentation. */
  lemma {:induction false} SegmentsCorrect(tokens: seq<Protected>, text: string)
    requires Distinct(tokens) && LongestFirst(tokens)
    ensures IsSegmentation(Elements(tokens), text, Segments(tokens, text))
    decreases |text|
  {
    hide Distinct, LongestFirst, IsLongest, IsGap, Elements;
    if |text| > 0 {
      var segments := Segments(tokens, text);
      if MatchSpecial(tokens, text).Some? {
        FirstIsLongest(tokens, text);
        TokenNonEmpty(tokens, MatchSpecial(tokens, text).value);
      } else {
        NextIsGap(tokens, text);
        GapNonEmpty(tokens, text);
      }
      var rest := text[|segments[0].Text()|..];
      SegmentsCorrect(tokens, rest);
      assert segments[1..] == Segments(tokens, rest);
    }
  }

  lemma TokenNonEmpty(tokens: seq<Protected>, p: Protected)
    requires Distinct(tokens) && p in tokens
    ensures |p.text| > 0
  {
  }

  /** A text has at most one segmentation. */
  lemma {:induction false} SegmentationUnique(tokens: set<Protected>, text: string, a: seq<Segment>, b: seq<Segment>)
    requires DistinctSet(tokens)
    requires IsSegmentation(tokens, text, a) && IsSegmentation(tokens, text, b)
    ensures a == b
    decreases |a|
  {
    hide DistinctSet, IsLongest, IsGap;
    if |a| > 0 {
      FirstSegmentUnique(tokens, text, a[0], b[0]);
      SegmentationUnique(tokens, text[|a[0].Text()|..], a[1..], b[1..]);
      assert a == [a[0]] + a[1..] && b == [b[0]] + b[1..];
    }
  }

  lemma FirstSegmentUnique(tokens: set<Protected>, text: string, s: Segment, t: Segment)
    requires DistinctSet(tokens)
    requires if s.Special? then IsLongest(tokens, s.token, text) else IsGap(tokens, s.text, text)
    requires if t.Special? then IsLongest(tokens, t.token, text) else IsGap(tokens, t.text, text)
    ensures s == t
  {
    assert text[0..] == text;
    if s.Special? && t.Special? {
      assert s.token.text == text[..|s.token.text|] && t.token.text == text[..|t.token.text|];
    } else if s.Gap? && t.Gap? {
      GapLengths(tokens, s.text, t.text, text);
      GapLengths(tokens, t.text, s.text, text);
      assert s.text == text[..|s.text|] && t.text == text[..|t.text|];
    }
  }

  lemma GapLengths(tokens: set<Protected>, g: string, h: string, text: string)
    requires IsGap(tokens, g, text) && IsGap(tokens, h, text)
    ensures |g| <= |h|
  {
  }

  /** The iteration order of the set behind the list does not matter. */
  lemma SegmentsOrderFree(first: seq<Protected>, second: seq<Protected>, text: string)
    requires Distinct(first) && Distinct(second) && LongestFirst(first) && LongestFirst(second)
    requires Elements(first) == Elements(second)
    ensures Segments(first, text) == Segments(second, text)
  {
    SegmentsCorrect(first, text);
    SegmentsCorrect(second, text);
    assert DistinctSet(Elements(first));
    SegmentationUnique(Elements(first), text, Segments(first, text), Segments(second, text));
  }

  function Texts(segments: seq<Segment>): (texts: seq<string>)
    ensures |texts| == |segments|
  {
    seq(|segments|, i requires 0 <= i < |segments| => segments[i].Text())
  }

  /** A segmentation covers the text. */
  lemma {:induction false} SegmentationCovers(tokens: set<Protected>, text: string, segments: seq<Segment>)
    requires IsSegmentation(tokens, text, segments)
    ensures Flat(Texts(segments)) == text
    decreases |segments|
  {
    hide IsLongest, IsGap, Segment.Text;
    if |segments| > 0 {
      var rest := text[|segments[0].Text()|..];
      SegmentationCovers(tokens, rest, segments[1..]);
      assert Texts(segments)[1..] == Texts(segments[1..]);
      assert text == segments[0].Text() + rest;
    }
  }

  // ----- one segment, by its place in the text -----

  /** Where segment `i` begins. */
  function Place(segments: seq<Segment>, i: nat): nat
    requires i <= |segments|
  {
    if i == 0 then 0 else Place(segments, i - 1) + |segments[i - 1].Text()|
  }

  lemma {:induction false} PlaceShift(segments: seq<Segment>, i: nat)
    requires 0 < i <= |segments|
    ensures Place(segments, i) == |segments[0].Text()| + Place(segments[1..], i - 1)
  {
    if i > 1 {
      PlaceShift(segments, i - 1);
    }
  }

  /** A special is a token that starts at its place, and no longer one starts there. In a gap no token starts
      anywhere, and a gap that does not end the text ends where one does. */
  ghost predicate AtPlace(tokens: seq<Protected>, text: string, s: Segment, at: nat) {
    && at + |s.Text()| <= |text| && s.Text() == text[at..at + |s.Text()|]
    && match s
       case Special(token) =>
         token in tokens && forall q :: q in tokens && q.text <= text[at..] ==> |q.text| <= |token.text|
       case Gap(gap) =>
         && |gap| > 0
         && (forall q, o :: q in tokens && at <= o < at + |gap| ==> !(q.text <= text[o..]))
         && (at + |gap| < |text| ==> exists q :: q in tokens && q.text <= text[at + |gap|..])
  }

  lemma {:induction false} AtPlaceShift(tokens: seq<Protected>, text: string, n: nat, s: Segment, at: nat)
    requires n <= |text| && AtPlace(tokens, text[n..], s, at)
    ensures AtPlace(tokens, text, s, n + at)
  {
    var rest := text[n..];
    assert forall o :: 0 <= o <= |rest| ==> rest[o..] == text[n + o..];
    assert rest[at..at + |s.Text()|] == text[n + at..n + at + |s.Text()|];
    if s.Gap? {
      forall q, o | q in tokens && n + at <= o < n + at + |s.text|
        ensures !(q.text <= text[o..])
      {
        assert rest[o - n..] == text[o..];
      }
    }
  }

  lemma {:induction false} HeadAtPlace(tokens: seq<Protected>, text: string, s: Segment)
    requires s.Text() <= text
    requires if s.Special? then IsLongest(Elements(tokens), s.token, text) else IsGap(Elements(tokens), s.text, text)
    ensures AtPlace(tokens, text, s, 0)
  {
    assert text[0..] == text;
    if s.Gap? {
      forall q, o | q in tokens && 0 <= o < |s.text|
        ensures !(q.text <= text[o..])
      {
        assert q in Elements(tokens) && !SomeStarts(Elements(tokens), text[o..]);
        assert !StartsHere(q, text[o..]);
      }
      if |s.text| < |text| {
        var q :| q in Elements(tokens) && StartsHere(q, text[|s.text|..]);
        assert q in tokens && q.text <= text[|s.text|..];
      }
    }
  }

  /** Every segment the search finds is what stands at its place: the longest token there, or the text up to
      the next place where a token starts. */
  lemma {:induction false} SegmentsAtPlace(tokens: seq<Protected>, text: string, segments: seq<Segment>, i: nat)
    requires IsSegmentation(Elements(tokens), text, segments) && i < |segments|
    ensures AtPlace(tokens, text, segments[i], Place(segments, i))
    decreases i
  {
    hide IsLongest, IsGap, Elements, AtPlace, Segment.Text;
    if i == 0 {
      HeadAtPlace(tokens, text, segments[0]);
    } else {
      var n := |segments[0].Text()|;
      SegmentsAtPlace(tokens, text[n..], segments[1..], i - 1);
      AtPlaceShift(tokens, text, n, segments[i], Place(segments[1..], i - 1));
      PlaceShift(segments, i);
    }
  }

  lemma {:induction false} SearchAtPlace(tokens: seq<Protected>, text: string, i: nat)
    requires Distinct(tokens) && LongestFirst(tokens) && i < |Segments(tokens, text)|
    ensures AtPlace(tokens, text, Segments(tokens, text)[i], Place(Segments(tokens, text), i))
  {
    hide AtPlace, Segments, Distinct, LongestFirst, Place, IsSegmentation;
    SegmentsCorrect(tokens, text);
    SegmentsAtPlace(tokens, text, Segments(tokens, text), i);
  }
}
