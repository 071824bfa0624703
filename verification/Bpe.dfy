/** Byte-pair encoding driven by merge ranks: the adjacent pair of lowest rank is merged,
    the leftmost such pair first, until no adjacent pair is in the merge table. */
module Bpe {
  import opened Prelude
  import opened Parts

  type Merges = map<(string, string), nat>

  // ----- the merge that comes next -----

  predicate CanMerge(merges: Merges, parts: seq<string>, i: int) {
    0 <= i && i + 1 < |parts| && (parts[i], parts[i + 1]) in merges
  }

  function Rank(merges: Merges, parts: seq<string>, i: int): nat
    requires CanMerge(merges, parts, i)
  {
    merges[(parts[i], parts[i + 1])]
  }

  /** A pair of least rank, and no pair to its left has that rank. */
  ghost predicate IsNext(merges: Merges, parts: seq<string>, i: int) {
    CanMerge(merges, parts, i)
    && forall j :: CanMerge(merges, parts, j) ==>
         Rank(merges, parts, i) <= Rank(merges, parts, j)
         && (j < i ==> Rank(merges, parts, i) < Rank(merges, parts, j))
  }

  ghost predicate Finished(merges: Merges, parts: seq<string>) {
    forall j :: !CanMerge(merges, parts, j)
  }

  /** `windows(2).enumerate().filter_map(..).min_by_key(..)`: the first pair of least rank. */
  method FindNext(merges: Merges, parts: seq<string>) returns (best: Option<nat>)
    requires |parts| > 1
    ensures best.Some? ==> IsNext(merges, parts, best.value)
    ensures best.None? ==> Finished(merges, parts)
  {
    best := None;
    for index := 0 to |parts| - 1
      invariant best.Some? ==> best.value < index && CanMerge(merges, parts, best.value)
      invariant forall j :: j < index && CanMerge(merges, parts, j) ==>
        best.Some? && Rank(merges, parts, best.value) <= Rank(merges, parts, j)
        && (j < best.value ==> Rank(merges, parts, best.value) < Rank(merges, parts, j))
    {
      if CanMerge(merges, parts, index)
         && (best.None? || Rank(merges, parts, index) < Rank(merges, parts, best.value)) {
        best := Some(index);
      }
    }
  }

  lemma NextIsUnique(merges: Merges, parts: seq<string>, i: int, j: int)
    requires IsNext(merges, parts, i) && IsNext(merges, parts, j)
    ensures i == j
  {
  }

  function MergeAt(parts: seq<string>, i: nat): (r: seq<string>)
    requires i + 1 < |parts|
    ensures |r| == |parts| - 1
    ensures NonEmpty(parts) ==> NonEmpty(r)
  {
    parts[..i] + [parts[i] + parts[i + 1]] + parts[i + 2..]
  }

  ghost function Bpe(merges: Merges, parts: seq<string>): (r: seq<string>)
    ensures NonEmpty(parts) ==> NonEmpty(r)
    decreases |parts|
  {
    if i: nat :| IsNext(merges, parts, i) then Bpe(merges, MergeAt(parts, i)) else parts
  }

  method ApplyBpe(merges: Merges, initial: seq<string>) returns (parts: seq<string>)
    ensures parts == Bpe(merges, initial)
  {
    parts := initial;
    while |parts| > 1
      invariant Bpe(merges, parts) == Bpe(merges, initial)
    {
      var best := FindNext(merges, parts);
      if best.None? {
        BpeFinished(merges, parts);
        return;
      }
      BpeStep(merges, parts, best.value);
      parts := MergeAt(parts, best.value);
    }
    BpeFinished(merges, parts);
  }

  lemma BpeStep(merges: Merges, parts: seq<string>, i: nat)
    requires IsNext(merges, parts, i)
    ensures Bpe(merges, parts) == Bpe(merges, MergeAt(parts, i))
  {
    hide MergeAt;
    var j: nat :| IsNext(merges, parts, j) && Bpe(merges, parts) == Bpe(merges, MergeAt(parts, j));
    NextIsUnique(merges, parts, i, j);
  }

  lemma BpeFinished(merges: Merges, parts: seq<string>)
    requires Finished(merges, parts)
    ensures Bpe(merges, parts) == parts
  {
    hide MergeAt;
    forall i: nat
      ensures !IsNext(merges, parts, i)
    {
      assert !CanMerge(merges, parts, i);
    }
  }

  /** Either some pair comes next or no pair can be merged. */
  lemma NextExists(merges: Merges, parts: seq<string>) returns (i: Option<nat>)
    ensures i.Some? ==> IsNext(merges, parts, i.value)
    ensures i.None? ==> Finished(merges, parts)
  {
    i := NextAmong(merges, parts, |parts|);
  }

  lemma {:induction false} NextAmong(merges: Merges, parts: seq<string>, n: nat) returns (i: Option<nat>)
    ensures i.Some? ==> CanMerge(merges, parts, i.value)
    ensures forall j :: j < n && CanMerge(merges, parts, j) ==>
      i.Some? && Rank(merges, parts, i.value) <= Rank(merges, parts, j)
      && (j < i.value ==> Rank(merges, parts, i.value) < Rank(merges, parts, j))
    ensures i.Some? ==> i.value < n
  {
    if n == 0 {
      return None;
    }
    i := NextAmong(merges, parts, n - 1);
    if CanMerge(merges, parts, n - 1)
       && (i.None? || Rank(merges, parts, n - 1) < Rank(merges, parts, i.value)) {
      i := Some(n - 1);
    }
  }

  // ----- what merging keeps -----

  lemma {:induction false} MergeKeepsText(parts: seq<string>, i: nat)
    requires i + 1 < |parts|
    ensures Flat(MergeAt(parts, i)) == Flat(parts)
  {
    var pair, rest := parts[i..i + 2], parts[i + 2..];
    assert parts == parts[..i] + (pair + rest) && pair == [parts[i]] + [parts[i + 1]];
    FlatConcat(parts[..i], pair + rest);
    FlatConcat(pair, rest);
    FlatConcat([parts[i]], [parts[i + 1]]);
    FlatSingle(parts[i]);
    FlatSingle(parts[i + 1]);
    FlatSingle(parts[i] + parts[i + 1]);
    assert MergeAt(parts, i) == parts[..i] + ([parts[i] + parts[i + 1]] + rest);
    FlatConcat(parts[..i], [parts[i] + parts[i + 1]] + rest);
    FlatConcat([parts[i] + parts[i + 1]], rest);
  }

  /** The cuts left after a merge are the cuts before it, but one. */
  lemma {:induction false} MergeCut(parts: seq<string>, i: nat, k: nat)
    requires i + 1 < |parts| && k < |parts|
    ensures Flat(MergeAt(parts, i)[..k]) == Flat(parts[..if k <= i then k else k + 1])
  {
    if k <= i {
      assert MergeAt(parts, i)[..k] == parts[..k];
    } else {
      assert MergeAt(parts, i)[..k] == MergeAt(parts[..k + 1], i);
      MergeKeepsText(parts[..k + 1], i);
    }
  }

  lemma {:induction false} BpeKeepsText(merges: Merges, parts: seq<string>)
    ensures Flat(Bpe(merges, parts)) == Flat(parts)
    decreases |parts|
  {
    hide MergeAt, Flat;
    var next := NextExists(merges, parts);
    if next.Some? {
      BpeStep(merges, parts, next.value);
      MergeKeepsText(parts, next.value);
      BpeKeepsText(merges, MergeAt(parts, next.value));
    } else {
      BpeFinished(merges, parts);
    }
  }

  /** Nothing is left to merge in the result. */
  lemma {:induction false} BpeEnds(merges: Merges, parts: seq<string>)
    ensures Finished(merges, Bpe(merges, parts))
    decreases |parts|
  {
    hide MergeAt;
    var next := NextExists(merges, parts);
    if next.Some? {
      BpeStep(merges, parts, next.value);
      BpeEnds(merges, MergeAt(parts, next.value));
    } else {
      BpeFinished(merges, parts);
    }
  }

  /** Every cut of the result is a cut of the input. */
  lemma {:induction false} CutIsOld(merges: Merges, parts: seq<string>, k: nat) returns (j: nat)
    requires k <= |Bpe(merges, parts)|
    ensures j <= |parts| && Flat(Bpe(merges, parts)[..k]) == Flat(parts[..j])
    decreases |parts|
  {
    hide MergeAt, Flat;
    var next := NextExists(merges, parts);
    if next.Some? {
      BpeStep(merges, parts, next.value);
      j := CutIsOld(merges, MergeAt(parts, next.value), k);
      MergeCut(parts, next.value, j);
      j := if j <= next.value then j else j + 1;
    } else {
      BpeFinished(merges, parts);
      j := k;
    }
  }

  // ----- splitting the input -----

  lemma NextOnLeft(merges: Merges, a: seq<string>, b: seq<string>, i: nat)
    requires IsNext(merges, a + b, i) && i + 1 < |a|
    ensures IsNext(merges, a, i) && MergeAt(a + b, i) == MergeAt(a, i) + b
  {
    forall j | CanMerge(merges, a, j)
      ensures CanMerge(merges, a + b, j) && Rank(merges, a + b, j) == Rank(merges, a, j)
    {
    }
  }

  lemma NextOnRight(merges: Merges, a: seq<string>, b: seq<string>, i: nat)
    requires IsNext(merges, a + b, i) && i >= |a|
    ensures IsNext(merges, b, i - |a|) && MergeAt(a + b, i) == a + MergeAt(b, i - |a|)
  {
    forall j | CanMerge(merges, b, j)
      ensures CanMerge(merges, a + b, j + |a|) && Rank(merges, a + b, j + |a|) == Rank(merges, b, j)
    {
    }
  }

  lemma FinishedParts(merges: Merges, a: seq<string>, b: seq<string>)
    requires Finished(merges, a + b)
    ensures Finished(merges, a) && Finished(merges, b)
  {
    forall j
      ensures !CanMerge(merges, a, j) && !CanMerge(merges, b, j)
    {
      assert !CanMerge(merges, a + b, j) && !CanMerge(merges, a + b, j + |a|);
    }
  }

  /** Where the result has a cut between the texts of `a` and `b`, the two were encoded apart. */
  lemma {:induction false} SplitStable(merges: Merges, a: seq<string>, b: seq<string>, k: nat)
    requires NonEmpty(a) && NonEmpty(b)
    requires k <= |Bpe(merges, a + b)| && Flat(Bpe(merges, a + b)[..k]) == Flat(a)
    ensures Bpe(merges, a + b)[..k] == Bpe(merges, a)
    ensures Bpe(merges, a + b)[k..] == Bpe(merges, b)
    decreases |a| + |b|
  {
    hide MergeAt, Flat, IsNext, Finished;
    var next := NextExists(merges, a + b);
    if next.None? {
      SplitFinished(merges, a, b, k);
      return;
    }
    var i := next.value;
    BpeStep(merges, a + b, i);
    NextInside(merges, a + b, i);
    if i + 1 < |a| {
      NextOnLeft(merges, a, b, i);
      BpeStep(merges, a, i);
      MergeKeepsText(a, i);
      SplitStable(merges, MergeAt(a, i), b, k);
    } else if i >= |a| {
      NextOnRight(merges, a, b, i);
      BpeStep(merges, b, i - |a|);
      SplitStable(merges, a, MergeAt(b, i - |a|), k);
    } else {
      var j := CutIsOld(merges, MergeAt(a + b, i), k);
      MergeCut(a + b, i, j);
      assert (a + b)[..|a|] == a;
      CutOnlyAt(a + b, |a|, if j <= i then j else j + 1);
    }
  }

  lemma NextInside(merges: Merges, parts: seq<string>, i: nat)
    requires IsNext(merges, parts, i)
    ensures i + 1 < |parts|
  {
  }

  lemma {:induction false} CutOnlyAt(parts: seq<string>, j: nat, k: nat)
    requires NonEmpty(parts) && j <= |parts| && k <= |parts|
    requires Flat(parts[..j]) == Flat(parts[..k])
    ensures j == k
  {
    hide Flat;
    if j < k {
      CutsDiffer(parts, j, k);
    } else if k < j {
      CutsDiffer(parts, k, j);
    }
  }

  lemma {:induction false} SplitFinished(merges: Merges, a: seq<string>, b: seq<string>, k: nat)
    requires NonEmpty(a) && NonEmpty(b) && Finished(merges, a + b)
    requires k <= |Bpe(merges, a + b)| && Flat(Bpe(merges, a + b)[..k]) == Flat(a)
    ensures Bpe(merges, a + b)[..k] == Bpe(merges, a)
    ensures Bpe(merges, a + b)[k..] == Bpe(merges, b)
  {
    hide Flat, Finished, Bpe;
    BpeFinished(merges, a + b);
    FinishedParts(merges, a, b);
    BpeFinished(merges, a);
    BpeFinished(merges, b);
    assert (a + b)[..|a|] == a && (a + b)[|a|..] == b;
    CutOnlyAt(a + b, |a|, k);
  }

  /** Encoding one part of a result again gives back that part alone. */
  lemma {:induction false} RerunPart(merges: Merges, s: string, k: nat)
    requires k < |Bpe(merges, Chars(s))|
    ensures Bpe(merges, Chars(Bpe(merges, Chars(s))[k])) == [Bpe(merges, Chars(s))[k]]
  {
    hide Flat, Bpe;
    var p := Chars(s);
    var r := Bpe(merges, p);
    var to := CutIsOld(merges, p, k + 1);
    assert p == p[..to] + p[to..];
    SplitStable(merges, p[..to], p[to..], k + 1);
    var q := p[..to];
    assert Bpe(merges, q) == r[..k + 1] && r[..k + 1][..k] == r[..k];
    var from := CutIsOld(merges, q, k);
    assert q == q[..from] + q[from..];
    SplitStable(merges, q[..from], q[from..], k);
    var middle := q[from..];
    assert r[..k + 1][k..] == [r[k]];
    BpeKeepsText(merges, middle);
    FlatSingle(r[k]);
    CharsOfFlat(middle);
  }

  // ----- the rule, said without the search -----

  function PairAt(parts: seq<string>, i: nat): (string, string)
    requires i + 1 < |parts|
  {
    (parts[i], parts[i + 1])
  }

  /** The pair at `i` is in the table, no pair ranks lower, and none of its rank stands further left. */
  ghost predicate LowestLeftmost(merges: Merges, parts: seq<string>, i: nat)
    requires i + 1 < |parts|
  {
    PairAt(parts, i) in merges
    && forall j: nat :: j + 1 < |parts| && PairAt(parts, j) in merges ==>
         merges[PairAt(parts, i)] < merges[PairAt(parts, j)]
         || (merges[PairAt(parts, i)] == merges[PairAt(parts, j)] && i <= j)
  }

  /** Merging joins the lowest-ranked pair, the leftmost of several, and starts over; it stops when no
      neighbours are a pair of the table. One of the two always applies. */
  lemma {:induction false} BpeRule(merges: Merges, parts: seq<string>)
    ensures forall i: nat :: i + 1 < |parts| && LowestLeftmost(merges, parts, i) ==>
      Bpe(merges, parts) == Bpe(merges, parts[..i] + [parts[i] + parts[i + 1]] + parts[i + 2..])
    ensures (forall i: nat :: i + 1 < |parts| ==> PairAt(parts, i) !in merges) ==> Bpe(merges, parts) == parts
    ensures (exists i: nat :: i + 1 < |parts| && LowestLeftmost(merges, parts, i))
            || (forall i: nat :: i + 1 < |parts| ==> PairAt(parts, i) !in merges)
  {
    hide Bpe;
    forall i: nat | i + 1 < |parts|
      ensures LowestLeftmost(merges, parts, i) <==> IsNext(merges, parts, i)
    {
      NextIsLowest(merges, parts, i);
    }
    forall i: nat | i + 1 < |parts| && LowestLeftmost(merges, parts, i)
      ensures Bpe(merges, parts) == Bpe(merges, parts[..i] + [parts[i] + parts[i + 1]] + parts[i + 2..])
    {
      BpeStep(merges, parts, i);
    }
    var next := NextExists(merges, parts);
    if next.None? {
      BpeFinished(merges, parts);
    }
  }

  lemma NextIsLowest(merges: Merges, parts: seq<string>, i: nat)
    requires i + 1 < |parts|
    ensures LowestLeftmost(merges, parts, i) <==> IsNext(merges, parts, i)
  {
    assert forall j: nat :: j + 1 < |parts| ==> (CanMerge(merges, parts, j) <==> PairAt(parts, j) in merges);
  }
}
