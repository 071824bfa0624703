/** The scanner that cuts ordinary text into the pieces that are merged separately.
    Positions count characters; the source counts the bytes those characters occupy. */
module Pretokenize {
  import opened Prelude
  import opened Parts

  /** The Unicode properties of characters, which the standard library supplies. */
  datatype CharTables = CharTables(
    alphabetic: char -> bool, numeric: char -> bool, whitespace: char -> bool, lower: char -> string)

  function AsciiLower(c: char): char {
    if 'A' <= c <= 'Z' then (c as int + 32) as char else c
  }

  /** What the scanner relies on: line ends are white space, and lower-casing yields an ASCII
      character only from an ASCII character. */
  ghost predicate Sound(t: CharTables) {
    && t.whitespace('\r') && t.whitespace('\n')
    && (forall c :: |t.lower(c)| > 0)
    && (forall c :: t.lower(c)[0] in "'strevmld" ==> c as int < 0x80)
    && (forall c :: c as int < 0x80 ==> t.lower(c) == [AsciiLower(c)])
  }

  predicate IsMark(c: char) {
    var n := c as int;
    || 0x0300 <= n <= 0x036F || 0x0483 <= n <= 0x0489 || 0x0591 <= n <= 0x05BD || n == 0x05BF
    || 0x05C1 <= n <= 0x05C2 || 0x05C4 <= n <= 0x05C5 || n == 0x05C7 || 0x0610 <= n <= 0x061A
    || 0x064B <= n <= 0x065F || n == 0x0670 || 0x06D6 <= n <= 0x06DC || 0x06DF <= n <= 0x06E4
    || 0x06E7 <= n <= 0x06E8 || 0x06EA <= n <= 0x06ED || 0x1AB0 <= n <= 0x1AFF || 0x1DC0 <= n <= 0x1DFF
    || 0x20D0 <= n <= 0x20FF || 0xFE00 <= n <= 0xFE0F || 0xFE20 <= n <= 0xFE2F || 0xE0100 <= n <= 0xE01EF
  }

  datatype CharClass = Letter | Punctuation | Blank | Newline

  predicate Is(t: CharTables, class_: CharClass, c: char) {
    match class_
    case Letter => t.alphabetic(c) || IsMark(c)
    case Punctuation => !t.whitespace(c) && !t.alphabetic(c) && !IsMark(c) && !t.numeric(c)
    case Blank => t.whitespace(c) && c != '\r' && c != '\n'
    case Newline => c == '\r' || c == '\n'
  }

  predicate AllAre(t: CharTables, class_: CharClass, s: string) {
    forall i :: 0 <= i < |s| ==> Is(t, class_, s[i])
  }

  // ----- runs -----

  /** The length of the longest start of `s` that lies in the class. */
  ghost function RunLen(t: CharTables, class_: CharClass, s: string): (n: nat)
    ensures n <= |s| && AllAre(t, class_, s[..n])
    ensures n < |s| ==> !Is(t, class_, s[n])
  {
    if |s| == 0 || !Is(t, class_, s[0]) then 0
    else
      var n := 1 + RunLen(t, class_, s[1..]);
      assert s[..n] == [s[0]] + s[1..][..n - 1];
      n
  }

  lemma RunIsLongest(t: CharTables, class_: CharClass, s: string, n: nat)
    requires n <= |s| && AllAre(t, class_, s[..n]) && (n < |s| ==> !Is(t, class_, s[n]))
    ensures RunLen(t, class_, s) == n
  {
    hide RunLen, Is;
    var m := RunLen(t, class_, s);
    forall i | 0 <= i < m
      ensures Is(t, class_, s[i])
    {
      assert s[..m][i] == s[i];
    }
    forall i | 0 <= i < n
      ensures Is(t, class_, s[i])
    {
      assert s[..n][i] == s[i];
    }
  }

  method MeasureRun(t: CharTables, class_: CharClass, s: string) returns (end: nat)
    ensures end == RunLen(t, class_, s)
  {
    hide Is, RunLen;
    end := 0;
    while end < |s| && Is(t, class_, s[end])
      invariant end <= |s| && forall i :: 0 <= i < end ==> Is(t, class_, s[i])
    {
      end := end + 1;
    }
    RunIsLongest(t, class_, s, end);
  }

  /** Punctuation and the line ends right after it. */
  ghost function PunctuationLen(t: CharTables, s: string): (n: nat)
    ensures n <= |s|
  {
    var end := RunLen(t, Punctuation, s);
    end + RunLen(t, Newline, s[end..])
  }

  method MeasurePunctuation(t: CharTables, s: string) returns (end: nat)
    ensures end == PunctuationLen(t, s)
  {
    end := MeasureRun(t, Punctuation, s);
    var newlines := MeasureRun(t, Newline, s[end..]);
    end := end + newlines;
  }

  /** Blanks and the line ends after them; without line ends, the last of several blanks is
      left to begin the next piece if it can. */
  ghost function WhitespaceLen(t: CharTables, s: string): (n: nat)
    ensures n <= |s|
    ensures |s| > 0 && (Is(t, Blank, s[0]) || Is(t, Newline, s[0])) ==> n > 0
  {
    var blanks := RunLen(t, Blank, s);
    var newlines := RunLen(t, Newline, s[blanks..]);
    if newlines > 0 then blanks + newlines
    else if blanks < |s| && blanks > 1 && CanPrefix(t, s[blanks - 1], s[blanks]) then blanks - 1
    else blanks
  }

  predicate CanPrefix(t: CharTables, blank: char, next: char) {
    Is(t, Letter, next) || (blank == ' ' && Is(t, Punctuation, next))
  }

  method MeasureWhitespace(t: CharTables, s: string) returns (end: nat)
    ensures end == WhitespaceLen(t, s)
  {
    end := MeasureRun(t, Blank, s);
    var newlines := MeasureRun(t, Newline, s[end..]);
    if newlines > 0 {
      end := end + newlines;
    } else if end < |s| && end > 0 && end - 1 > 0 && CanPrefix(t, s[end - 1], s[end]) {
      end := end - 1;
    }
  }

  // ----- contractions -----

  const CONTRACTIONS: seq<string> := ["'s", "'t", "'re", "'ve", "'m", "'ll", "'d"]

  function LowerAll(t: CharTables, s: string): string {
    if |s| == 0 then "" else t.lower(s[0]) + LowerAll(t, s[1..])
  }

  function FirstPrefix(candidates: seq<string>, s: string): (r: Option<nat>)
    ensures r.Some? ==> exists k :: 0 <= k < |candidates| && candidates[k] <= s && r.value == |candidates[k]|
    ensures r.None? ==> forall k :: 0 <= k < |candidates| ==> !(candidates[k] <= s)
  {
    if |candidates| == 0 then None
    else if candidates[0] <= s then Some(|candidates[0]|)
    else FirstPrefix(candidates[1..], s)
  }

  function ContractionLen(t: CharTables, s: string): Option<nat> {
    FirstPrefix(CONTRACTIONS, LowerAll(t, s[..if |s| < 3 then |s| else 3]))
  }

  /** `s` starts with the contraction, in either case. */
  predicate StartsFolded(s: string, contraction: string) {
    |contraction| <= |s| && forall i :: 0 <= i < |contraction| ==> AsciiLower(s[i]) == contraction[i] && s[i] as int < 0x80
  }

  lemma {:induction false} LowerPrefix(t: CharTables, s: string, k: string)
    requires Sound(t) && forall i :: 0 <= i < |k| ==> k[i] in "'strevmld"
    ensures k <= LowerAll(t, s) <==> StartsFolded(s, k)
  {
    if |k| == 0 || |s| == 0 {
      return;
    }
    LowerPrefix(t, s[1..], k[1..]);
    if k <= LowerAll(t, s) {
      assert t.lower(s[0])[0] == k[0];
      assert LowerAll(t, s)[1..] == LowerAll(t, s[1..]);
    }
    if StartsFolded(s, k) {
      assert t.lower(s[0]) == [k[0]];
      assert k == [k[0]] + k[1..];
    }
  }

  lemma ContractionLetters(k: nat)
    requires k < |CONTRACTIONS|
    ensures |CONTRACTIONS[k]| <= 3 && forall i :: 0 <= i < |CONTRACTIONS[k]| ==> CONTRACTIONS[k][i] in "'strevmld"
    ensures |CONTRACTIONS[k]| >= 2
  {
  }

  /** A contraction is found exactly when the text starts with one, and its length in the
      lower-cased text is its length in the text itself. */
  lemma {:induction false} ContractionFound(t: CharTables, s: string)
    requires Sound(t)
    ensures ContractionLen(t, s).Some? <==> exists k :: 0 <= k < |CONTRACTIONS| && StartsFolded(s, CONTRACTIONS[k])
    ensures ContractionLen(t, s).Some? ==>
      exists k :: 0 <= k < |CONTRACTIONS| && StartsFolded(s, CONTRACTIONS[k]) && ContractionLen(t, s).value == |CONTRACTIONS[k]|
  {
    hide Sound, LowerAll, CONTRACTIONS;
    var head := s[..if |s| < 3 then |s| else 3];
    forall k | 0 <= k < |CONTRACTIONS|
      ensures CONTRACTIONS[k] <= LowerAll(t, head) <==> StartsFolded(s, CONTRACTIONS[k])
    {
      ContractionLetters(k);
      LowerPrefix(t, head, CONTRACTIONS[k]);
    }
  }

  predicate Either(c: char, lower: char, upper: char) { c == lower || c == upper }

  lemma FoldedTwo(s: string, a: char, upperA: char)
    requires 'a' <= a <= 'z' && upperA as int + 32 == a as int
    ensures StartsFolded(s, ['\'', a]) <==> |s| > 1 && s[0] == '\'' && Either(s[1], a, upperA)
  {
  }

  lemma FoldedThree(s: string, a: char, upperA: char, b: char, upperB: char)
    requires 'a' <= a <= 'z' && upperA as int + 32 == a as int
    requires 'a' <= b <= 'z' && upperB as int + 32 == b as int
    ensures StartsFolded(s, ['\'', a, b]) <==>
              |s| > 2 && s[0] == '\'' && Either(s[1], a, upperA) && Either(s[2], b, upperB)
  {
  }

  /** An apostrophe and one of s, t, m, d, or two of re, ve, ll, in either case. */
  lemma {:induction false} ContractionShape(t: CharTables, s: string)
    requires Sound(t)
    ensures ContractionLen(t, s) == Some(2) <==>
              |s| > 1 && s[0] == '\''
              && (Either(s[1], 's', 'S') || Either(s[1], 't', 'T') || Either(s[1], 'm', 'M') || Either(s[1], 'd', 'D'))
    ensures ContractionLen(t, s) == Some(3) <==>
              |s| > 2 && s[0] == '\''
              && ((Either(s[1], 'r', 'R') && Either(s[2], 'e', 'E')) || (Either(s[1], 'v', 'V') && Either(s[2], 'e', 'E'))
                  || (Either(s[1], 'l', 'L') && Either(s[2], 'l', 'L')))
    ensures ContractionLen(t, s) in {None, Some(2), Some(3)}
  {
    hide Sound, ContractionLen, StartsFolded, Either;
    ContractionFound(t, s);
    ContractionExact(t, s, 2);
    ContractionExact(t, s, 3);
    FoldedTwo(s, 's', 'S');
    FoldedTwo(s, 't', 'T');
    FoldedTwo(s, 'm', 'M');
    FoldedTwo(s, 'd', 'D');
    FoldedThree(s, 'r', 'R', 'e', 'E');
    FoldedThree(s, 'v', 'V', 'e', 'E');
    FoldedThree(s, 'l', 'L', 'l', 'L');
    assert CONTRACTIONS[0] == ['\'', 's'] && CONTRACTIONS[1] == ['\'', 't'] && CONTRACTIONS[4] == ['\'', 'm']
        && CONTRACTIONS[6] == ['\'', 'd'] && CONTRACTIONS[2] == ['\'', 'r', 'e'] && CONTRACTIONS[3] == ['\'', 'v', 'e']
        && CONTRACTIONS[5] == ['\'', 'l', 'l'];
  }

  // ----- pieces -----

  ghost function PieceLen(t: CharTables, s: string): (n: nat)
    requires |s| > 0
  {
    var first := s[0];
    if ContractionLen(t, s).Some? then ContractionLen(t, s).value
    else if !Is(t, Newline, first) && !Is(t, Letter, first) && !t.numeric(first) && |s| > 1 && Is(t, Letter, s[1]) then
      1 + RunLen(t, Letter, s[1..])
    else if t.numeric(first) then 1
    else if first == ' ' && |s| > 1 && Is(t, Punctuation, s[1]) then 1 + PunctuationLen(t, s[1..])
    else if Is(t, Letter, first) then RunLen(t, Letter, s)
    else if t.whitespace(first) then WhitespaceLen(t, s)
    else PunctuationLen(t, s)
  }

  /** Every step takes something, and no more than there is. */
  lemma PieceProgress(t: CharTables, s: string)
    requires Sound(t) && |s| > 0
    ensures 0 < PieceLen(t, s) <= |s|
  {
    hide Sound, CONTRACTIONS, IsMark;
    if ContractionLen(t, s).Some? {
      ContractionFound(t, s);
      var k :| 0 <= k < |CONTRACTIONS| && StartsFolded(s, CONTRACTIONS[k]) && ContractionLen(t, s).value == |CONTRACTIONS[k]|;
      ContractionLetters(k);
    }
  }

  method MeasurePiece(t: CharTables, s: string) returns (n: nat)
    requires |s| > 0
    ensures n == PieceLen(t, s)
  {
    hide ContractionLen, RunLen, PunctuationLen, WhitespaceLen, IsMark;
    var first := s[0];
    var contraction := ContractionLen(t, s);
    if contraction.Some? {
      n := contraction.value;
    } else if !Is(t, Newline, first) && !Is(t, Letter, first) && !t.numeric(first) && |s| > 1 && Is(t, Letter, s[1]) {
      n := MeasureRun(t, Letter, s[1..]);
      n := 1 + n;
    } else if t.numeric(first) {
      n := 1;
    } else if first == ' ' && |s| > 1 && Is(t, Punctuation, s[1]) {
      n := MeasurePunctuation(t, s[1..]);
      n := 1 + n;
    } else if Is(t, Letter, first) {
      n := MeasureRun(t, Letter, s);
    } else if t.whitespace(first) {
      n := MeasureWhitespace(t, s);
    } else {
      n := MeasurePunctuation(t, s);
    }
  }

  ghost function Pieces(t: CharTables, s: string): (pieces: seq<string>)
    requires Sound(t)
  {
    if |s| == 0 then []
    else
      PieceProgress(t, s);
      [s[..PieceLen(t, s)]] + Pieces(t, s[PieceLen(t, s)..])
  }

  /** No character is lost, added or moved, and no piece is empty. */
  lemma {:induction false} PiecesLossless(t: CharTables, s: string)
    requires Sound(t)
    ensures Flat(Pieces(t, s)) == s && NonEmpty(Pieces(t, s))
    decreases |s|
  {
    hide Sound, PieceLen;
    if |s| > 0 {
      PieceProgress(t, s);
      var n := PieceLen(t, s);
      PiecesLossless(t, s[n..]);
      assert Pieces(t, s)[1..] == Pieces(t, s[n..]);
      assert s == s[..n] + s[n..];
    }
  }

  // ----- what a piece looks like -----

  ghost predicate IsContraction(piece: string) {
    exists k :: 0 <= k < |CONTRACTIONS| && |piece| == |CONTRACTIONS[k]| && StartsFolded(piece, CONTRACTIONS[k])
  }

  /** Letters that could not go on, perhaps after one other character. */
  ghost predicate IsWord(t: CharTables, piece: string, rest: string) {
    && |piece| > 0 && (|rest| > 0 ==> !Is(t, Letter, rest[0]))
    && AllAre(t, Letter, piece[1..])
    && (Is(t, Letter, piece[0]) || (|piece| > 1 && !Is(t, Newline, piece[0]) && !t.numeric(piece[0])))
  }

  ghost predicate SymbolsCut(t: CharTables, piece: string, rest: string, from: nat, to: nat) {
    && from <= 1 && from < to <= |piece| && (from == 1 ==> piece[0] == ' ')
    && AllAre(t, Punctuation, piece[from..to]) && AllAre(t, Newline, piece[to..])
    && (|rest| > 0 ==> !Is(t, Newline, rest[0]) && (to == |piece| ==> !Is(t, Punctuation, rest[0])))
  }

  /** Punctuation with the line ends after it, perhaps after one space. */
  ghost predicate IsSymbols(t: CharTables, piece: string, rest: string) {
    exists from: nat, to: nat :: SymbolsCut(t, piece, rest, from, to)
  }

  /** Blanks with the line ends after them, all of them; or blanks alone. Before a letter or mark, or where
      the last of them is a space before punctuation, a run of two or more blanks leaves its last one to the
      next piece; before anything but a line end every other run is taken whole. */
  ghost predicate WhiteCut(t: CharTables, piece: string, rest: string, to: nat) {
    && 0 < |piece| && to <= |piece|
    && AllAre(t, Blank, piece[..to]) && AllAre(t, Newline, piece[to..])
    && (if to < |piece| then |rest| > 0 ==> !Is(t, Newline, rest[0])
        else if |rest| > 0 && Is(t, Blank, rest[0]) then
          |rest| > 1 && (Is(t, Letter, rest[1]) || (rest[0] == ' ' && Is(t, Punctuation, rest[1])))
        else
          |rest| > 0 ==>
            && !Is(t, Newline, rest[0])
            && (|piece| > 1 ==> !Is(t, Letter, rest[0]) && (piece[|piece| - 1] == ' ' ==> !Is(t, Punctuation, rest[0]))))
  }

  ghost predicate IsWhite(t: CharTables, piece: string, rest: string) {
    exists to: nat :: WhiteCut(t, piece, rest, to)
  }

  ghost predicate IsPiece(t: CharTables, piece: string, rest: string) {
    || IsContraction(piece) || IsWord(t, piece, rest) || IsSymbols(t, piece, rest) || IsWhite(t, piece, rest)
    || (|piece| == 1 && t.numeric(piece[0]))
  }

  lemma {:induction false} PunctuationShape(t: CharTables, s: string)
    ensures
      var to, n := RunLen(t, Punctuation, s), PunctuationLen(t, s);
      && to <= n <= |s| && AllAre(t, Punctuation, s[..to]) && AllAre(t, Newline, s[to..n])
      && (n < |s| ==> !Is(t, Newline, s[n]) && (to == n ==> !Is(t, Punctuation, s[n])))
  {
    hide RunLen, Is;
    var to, n := RunLen(t, Punctuation, s), PunctuationLen(t, s);
    assert s[to..][..n - to] == s[to..n];
  }

  lemma {:induction false} WhiteShape(t: CharTables, s: string)
    requires WhitespaceLen(t, s) > 0
    ensures IsWhite(t, s[..WhitespaceLen(t, s)], s[WhitespaceLen(t, s)..])
  {
    hide RunLen, IsMark;
    var blanks, n := RunLen(t, Blank, s), WhitespaceLen(t, s);
    var newlines := RunLen(t, Newline, s[blanks..]);
    var piece, rest := s[..n], s[n..];
    var to := if n < blanks then n else blanks;
    assert piece[..to] == s[..blanks][..to];
    assert piece[to..] == if n <= blanks then [] else s[blanks..][..newlines];
    assert n < blanks ==> rest[0] == s[..blanks][n];
    assert WhiteCut(t, piece, rest, to);
  }

  lemma {:induction false} WordShape(t: CharTables, s: string, from: nat)
    requires from <= 1 && from < |s| && Is(t, Letter, s[from])
    requires from == 1 ==> !Is(t, Newline, s[0]) && !t.numeric(s[0])
    ensures var n := from + RunLen(t, Letter, s[from..]); n <= |s| && IsWord(t, s[..n], s[n..])
  {
    hide Is, IsMark;
    var run := RunLen(t, Letter, s[from..]);
    var n := from + run;
    var piece := s[..n];
    assert piece[from..] == s[from..][..run];
    forall i | 0 <= i < |piece[1..]|
      ensures Is(t, Letter, piece[1..][i])
    {
      assert piece[1..][i] == piece[from..][i + 1 - from];
    }
  }

  lemma SliceOfSlice(s: string, n: nat, from: nat, a: nat, b: nat)
    requires a <= b && from + b <= n <= |s|
    ensures s[from..][a..b] == s[..n][from + a..from + b]
  {
  }

  lemma {:induction false} SymbolsShape(t: CharTables, s: string, from: nat)
    requires from <= 1 && from < |s| && Is(t, Punctuation, s[from]) && (from == 1 ==> s[0] == ' ')
    ensures var n := from + PunctuationLen(t, s[from..]); n <= |s| && IsSymbols(t, s[..n], s[n..])
  {
    hide Is, PunctuationLen, AllAre;
    PunctuationShape(t, s[from..]);
    var run := RunLen(t, Punctuation, s[from..]);
    var n := from + PunctuationLen(t, s[from..]);
    var piece, to := s[..n], from + run;
    SliceOfSlice(s, n, from, 0, run);
    SliceOfSlice(s, n, from, run, n - from);
    assert s[from..][..run] == piece[from..to];
    assert s[from..][run..n - from] == piece[to..];
    assert SymbolsCut(t, piece, s[n..], from, to);
  }

  /** Every piece has one of five shapes, and words and symbols are as long as they can be. */
  lemma {:induction false} PieceShape(t: CharTables, s: string)
    requires Sound(t) && |s| > 0
    ensures PieceLen(t, s) <= |s| && IsPiece(t, s[..PieceLen(t, s)], s[PieceLen(t, s)..])
  {
    hide Sound, CONTRACTIONS, IsMark, ContractionLen, RunLen, PunctuationLen, WhitespaceLen, IsWord, IsSymbols, IsWhite;
    var first := s[0];
    PieceProgress(t, s);
    assert s[0..] == s;
    if ContractionLen(t, s).Some? {
      ContractionFound(t, s);
      var k :| 0 <= k < |CONTRACTIONS| && StartsFolded(s, CONTRACTIONS[k]) && ContractionLen(t, s).value == |CONTRACTIONS[k]|;
      assert StartsFolded(s[..PieceLen(t, s)], CONTRACTIONS[k]);
    } else if !Is(t, Newline, first) && !Is(t, Letter, first) && !t.numeric(first) && |s| > 1 && Is(t, Letter, s[1]) {
      WordShape(t, s, 1);
    } else if t.numeric(first) {
    } else if first == ' ' && |s| > 1 && Is(t, Punctuation, s[1]) {
      SymbolsShape(t, s, 1);
    } else if Is(t, Letter, first) {
      WordShape(t, s, 0);
    } else if t.whitespace(first) {
      WhiteShape(t, s);
    } else {
      SymbolsShape(t, s, 0);
    }
  }

  // ----- where a piece ends, exactly -----

  /** From `from` to `to` all are of the class, and what follows is not. */
  ghost predicate RunAt(t: CharTables, class_: CharClass, s: string, from: nat, to: nat) {
    && from <= to <= |s| && (forall i :: from <= i < to ==> Is(t, class_, s[i]))
    && (to < |s| ==> !Is(t, class_, s[to]))
  }

  ghost predicate SymbolsEnd(t: CharTables, s: string, from: nat, n: nat) {
    exists to: nat :: RunAt(t, Punctuation, s, from, to) && RunAt(t, Newline, s, to, n)
  }

  ghost predicate WhiteEnd(t: CharTables, s: string, n: nat) {
    exists blanks: nat :: RunAt(t, Blank, s, 0, blanks) && AfterBlanks(t, s, blanks, n)
  }

  /** Line ends go along; before what can take a blank in front, one of several blanks is left to it. */
  ghost predicate AfterBlanks(t: CharTables, s: string, blanks: nat, n: nat) {
    if blanks < |s| && s[blanks] in "\r\n" then RunAt(t, Newline, s, blanks, n)
    else if 1 < blanks < |s| && (Is(t, Letter, s[blanks]) || (s[blanks - 1] == ' ' && Is(t, Punctuation, s[blanks])))
    then n == blanks - 1
    else n == blanks
  }

  /** The first piece of `s` has `n` characters. The cases are tried in this order. */
  ghost predicate PieceEnds(t: CharTables, s: string, n: nat)
    requires |s| > 0
  {
    if exists k :: 0 <= k < |CONTRACTIONS| && StartsFolded(s, CONTRACTIONS[k]) then
      exists k :: 0 <= k < |CONTRACTIONS| && StartsFolded(s, CONTRACTIONS[k]) && n == |CONTRACTIONS[k]|
    else if s[0] !in "\r\n" && !Is(t, Letter, s[0]) && !t.numeric(s[0]) && |s| > 1 && Is(t, Letter, s[1]) then
      RunAt(t, Letter, s, 1, n)
    else if t.numeric(s[0]) then n == 1
    else if s[0] == ' ' && |s| > 1 && Is(t, Punctuation, s[1]) then SymbolsEnd(t, s, 1, n)
    else if Is(t, Letter, s[0]) then RunAt(t, Letter, s, 0, n)
    else if t.whitespace(s[0]) then WhiteEnd(t, s, n)
    else SymbolsEnd(t, s, 0, n)
  }

  lemma {:induction false} RunEnds(t: CharTables, class_: CharClass, s: string, from: nat, to: nat)
    requires from <= |s|
    ensures RunAt(t, class_, s, from, to) <==> to == from + RunLen(t, class_, s[from..])
  {
    hide Is, RunLen;
    var run := RunLen(t, class_, s[from..]);
    forall i | from <= i < from + run
      ensures Is(t, class_, s[i])
    {
      assert s[from..][..run][i - from] == s[i];
    }
    if RunAt(t, class_, s, from, to) {
      var run' := s[from..][..to - from];
      forall i | 0 <= i < |run'|
        ensures Is(t, class_, run'[i])
      {
        assert run'[i] == s[from + i];
      }
      RunIsLongest(t, class_, s[from..], to - from);
    }
  }

  lemma {:induction false} SymbolsEndExact(t: CharTables, s: string, from: nat, n: nat)
    requires from <= |s|
    ensures SymbolsEnd(t, s, from, n) <==> n == from + PunctuationLen(t, s[from..])
  {
    hide Is, RunLen, RunAt;
    var to := from + RunLen(t, Punctuation, s[from..]);
    assert s[from..][to - from..] == s[to..];
    RunEnds(t, Punctuation, s, from, to);
    RunEnds(t, Newline, s, to, n);
    forall other: nat | RunAt(t, Punctuation, s, from, other)
      ensures other == to
    {
      RunEnds(t, Punctuation, s, from, other);
    }
  }

  lemma {:induction false} WhiteEndExact(t: CharTables, s: string, n: nat)
    ensures WhiteEnd(t, s, n) <==> n == WhitespaceLen(t, s)
  {
    hide RunLen, RunAt, AfterBlanks, WhitespaceLen;
    var blanks := RunLen(t, Blank, s);
    assert s[0..] == s;
    RunEnds(t, Blank, s, 0, blanks);
    AfterBlanksExact(t, s, n);
    forall other: nat | RunAt(t, Blank, s, 0, other)
      ensures other == blanks
    {
      RunEnds(t, Blank, s, 0, other);
    }
  }

  lemma {:induction false} AfterBlanksExact(t: CharTables, s: string, n: nat)
    ensures AfterBlanks(t, s, RunLen(t, Blank, s), n) <==> n == WhitespaceLen(t, s)
  {
    hide RunLen, RunAt, Is;
    var blanks := RunLen(t, Blank, s);
    RunEnds(t, Newline, s, blanks, n);
    NewlinesFollow(t, s, blanks);
  }

  lemma {:induction false} NewlinesFollow(t: CharTables, s: string, at: nat)
    requires at <= |s|
    ensures RunLen(t, Newline, s[at..]) > 0 <==> at < |s| && s[at] in "\r\n"
  {
  }

  lemma {:induction false} ContractionExact(t: CharTables, s: string, n: nat)
    requires Sound(t)
    ensures ContractionLen(t, s) == Some(n) <==>
              exists k :: 0 <= k < |CONTRACTIONS| && StartsFolded(s, CONTRACTIONS[k]) && n == |CONTRACTIONS[k]|
  {
    hide Sound, ContractionLen;
    ContractionFound(t, s);
    forall j, k | 0 <= j < |CONTRACTIONS| && 0 <= k < |CONTRACTIONS|
                  && StartsFolded(s, CONTRACTIONS[j]) && StartsFolded(s, CONTRACTIONS[k])
      ensures j == k
    {
      OneContraction(s, j, k);
    }
  }

  lemma OneContraction(s: string, j: nat, k: nat)
    requires j < |CONTRACTIONS| && k < |CONTRACTIONS|
    requires StartsFolded(s, CONTRACTIONS[j]) && StartsFolded(s, CONTRACTIONS[k])
    ensures j == k
  {
    assert AsciiLower(s[1]) == CONTRACTIONS[j][1] == CONTRACTIONS[k][1];
  }

  /** The scanner ends each piece exactly where the rules say. */
  lemma {:induction false} PieceExact(t: CharTables, s: string, n: nat)
    requires Sound(t) && |s| > 0
    ensures PieceEnds(t, s, n) <==> n == PieceLen(t, s)
  {
    hide Sound, CONTRACTIONS, StartsFolded, IsMark, ContractionLen, RunLen, PunctuationLen, WhitespaceLen, SymbolsEnd, WhiteEnd, RunAt;
    ContractionExact(t, s, n);
    ContractionFound(t, s);
    RunEnds(t, Letter, s, 0, n);
    SymbolsEndExact(t, s, 0, n);
    WhiteEndExact(t, s, n);
    assert s[0..] == s;
    if |s| > 1 {
      RunEnds(t, Letter, s, 1, n);
      SymbolsEndExact(t, s, 1, n);
    }
  }

  /** Each piece is the first piece of what is left from it on. */
  ghost predicate CutByRules(t: CharTables, pieces: seq<string>) {
    |pieces| == 0
    || (|pieces[0]| > 0 && PieceEnds(t, Flat(pieces), |pieces[0]|) && CutByRules(t, pieces[1..]))
  }

  /** A text is cut by the rules in one way, and that is the scanner's. */
  lemma {:induction false} PiecesExact(t: CharTables, pieces: seq<string>)
    requires Sound(t)
    ensures CutByRules(t, pieces) <==> pieces == Pieces(t, Flat(pieces))
  {
    hide Sound, PieceEnds, PieceLen;
    if |pieces| > 0 {
      var text, rest := Flat(pieces), pieces[1..];
      assert text == pieces[0] + Flat(rest);
      PiecesExact(t, rest);
      if |text| > 0 {
        PieceExact(t, text, |pieces[0]|);
        PieceProgress(t, text);
        assert |pieces[0]| == PieceLen(t, text) ==> text[..PieceLen(t, text)] == pieces[0] && text[PieceLen(t, text)..] == Flat(rest);
        assert pieces == [pieces[0]] + rest;
      }
    }
  }

  // ----- the scanner -----

  /** The pieces the rules cut the text into. */
  method Pretokenize(t: CharTables, text: string) returns (pieces: seq<string>)
    requires Sound(t)
    ensures pieces == Pieces(t, text)
    ensures Flat(pieces) == text && CutByRules(t, pieces)
  {
    hide Sound, PieceLen, CutByRules;
    pieces := [];
    var index := 0;
    while index < |text|
      invariant index <= |text|
      invariant pieces + Pieces(t, text[index..]) == Pieces(t, text)
    {
      var rest := text[index..];
      var n := MeasurePiece(t, rest);
      PieceProgress(t, rest);
      assert rest[..n] == text[index..index + n] && rest[n..] == text[index + n..];
      Associate(pieces, [text[index..index + n]], Pieces(t, text[index + n..]));
      pieces := pieces + [text[index..index + n]];
      index := index + n;
    }
    PiecesLossless(t, text);
    PiecesExact(t, pieces);
  }
}
