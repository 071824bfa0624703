/** A text cut into parts. */
module Parts {
  import opened Prelude

  function Flat(parts: seq<string>): (s: string) {
    if |parts| == 0 then "" else parts[0] + Flat(parts[1..])
  }

  /** The one-character parts of a string. */
  function Chars(s: string): (parts: seq<string>)
    ensures |parts| == |s| && forall i :: 0 <= i < |s| ==> parts[i] == [s[i]]
  {
    seq(|s|, i requires 0 <= i < |s| => [s[i]])
  }

  predicate NonEmpty(parts: seq<string>) { forall i :: 0 <= i < |parts| ==> |parts[i]| > 0 }

  lemma {:induction false} FlatConcat(a: seq<string>, b: seq<string>)
    ensures Flat(a + b) == Flat(a) + Flat(b)
  {
    if |a| == 0 {
      assert a + b == b;
    } else {
      FlatConcat(a[1..], b);
      assert (a + b)[1..] == a[1..] + b && (a + b)[0] == a[0];
      Associate(a[0], Flat(a[1..]), Flat(b));
    }
  }

  lemma {:induction false} FlatSingle(s: string)
    ensures Flat([s]) == s
  {
    assert [s][1..] == [];
    assert s + "" == s;
  }

  lemma {:induction false} FlatChars(s: string)
    ensures Flat(Chars(s)) == s
  {
    if |s| > 0 {
      FlatChars(s[1..]);
      assert Chars(s)[1..] == Chars(s[1..]);
    }
  }

  lemma {:induction false} CharsOfFlat(parts: seq<string>)
    requires forall i :: 0 <= i < |parts| ==> |parts[i]| == 1
    ensures Chars(Flat(parts)) == parts
  {
    if |parts| > 0 {
      CharsOfFlat(parts[1..]);
      assert Flat(parts)[1..] == Flat(parts[1..]);
      assert parts == [parts[0]] + parts[1..];
      forall i | 0 <= i < |parts|
        ensures i < |Flat(parts)| && parts[i] == [Flat(parts)[i]]
      {
        if i > 0 {
          assert parts[i] == Chars(Flat(parts[1..]))[i - 1];
        }
      }
    }
  }

  /** Longer runs of nonempty parts have longer text. */
  lemma {:induction false} CutsDiffer(parts: seq<string>, j: nat, k: nat)
    requires NonEmpty(parts) && j < k <= |parts|
    ensures |Flat(parts[..j])| < |Flat(parts[..k])|
  {
    FlatConcat(parts[..j], parts[j..k]);
    assert parts[..k] == parts[..j] + parts[j..k];
  }
}
