/** Flat row-major buffers and the matrices they represent. Every index computation
    of the reference network is of the form `row * width + column`; these lemmas are
    the only place where that product is reasoned about. */
module Matrix {
  /** Where row `n` starts: `n * w`, counted row by row so that proofs about buffers need
      no multiplication. */
  function Offset(n: nat, w: nat): nat {
    if n == 0 then 0 else Offset(n - 1, w) + w
  }

  lemma {:induction false} OffsetIsProduct(n: nat, w: nat)
    ensures Offset(n, w) == n * w
  {
    if n > 0 {
      OffsetIsProduct(n - 1, w);
      assert n * w == (n - 1) * w + w;
    }
  }

  lemma {:induction false} OffsetLe(r: nat, s: nat, w: nat)
    requires r <= s
    ensures Offset(r, w) <= Offset(s, w)
    decreases s - r
  {
    if r < s {
      OffsetLe(r + 1, s, w);
    }
  }

  lemma {:induction false} OffsetAdd(r: nat, s: nat, w: nat)
    ensures Offset(r + s, w) == Offset(r, w) + Offset(s, w)
    decreases s
  {
    if s > 0 {
      OffsetAdd(r, s - 1, w);
    }
  }

  /** Row `r` of a flat buffer whose rows are `w` long. */
  function Row<T>(flat: seq<T>, n: nat, w: nat, r: nat): (row: seq<T>)
    requires |flat| == Offset(n, w) && r < n
    ensures |row| == w
  {
    RowInside(n, w, r);
    flat[Offset(r, w)..Offset(r, w) + w]
  }

  /** Cell `i` of row `r` is the element at `r * w + i`. */
  lemma {:induction false} RowCell<T>(flat: seq<T>, n: nat, w: nat, r: nat, i: nat)
    requires |flat| == Offset(n, w) && r < n && i < w
    ensures r * w + i == Offset(r, w) + i < |flat|
    ensures Row(flat, n, w, r)[i] == flat[r * w + i]
  {
    RowInside(n, w, r);
    OffsetIsProduct(r, w);
  }

  /** The matrix of `n` rows of width `w` held by a flat buffer. */
  function Rows<T>(flat: seq<T>, n: nat, w: nat): (m: seq<seq<T>>)
    requires |flat| == Offset(n, w)
    ensures |m| == n
    ensures forall r :: 0 <= r < n ==> m[r] == Row(flat, n, w, r)
  {
    seq(n, r requires 0 <= r < n => Row(flat, n, w, r))
  }

  /** `flat` with the elements from `at` on overwritten by `mid`. */
  function Splice<T>(flat: seq<T>, at: nat, mid: seq<T>): (s: seq<T>)
    requires at + |mid| <= |flat|
    ensures |s| == |flat|
  {
    flat[..at] + mid + flat[at + |mid|..]
  }

  lemma {:induction false} RowInside(n: nat, w: nat, r: nat)
    requires r < n
    ensures Offset(r, w) + w <= Offset(n, w)
  {
    OffsetLe(r + 1, n, w);
  }

  lemma {:induction false} RowsApart(w: nat, r: nat, s: nat)
    requires r < s
    ensures Offset(r, w) + w <= Offset(s, w)
  {
    OffsetLe(r + 1, s, w);
  }

  /** Writing one row changes that row of the matrix and no other. */
  lemma {:induction false} SetRow<T>(flat: seq<T>, n: nat, w: nat, r: nat, row: seq<T>)
    requires |flat| == Offset(n, w) && r < n && |row| == w
    ensures Offset(r, w) + w <= Offset(n, w)
    ensures Rows(Splice(flat, Offset(r, w), row), n, w) == Rows(flat, n, w)[r := row]
  {
    RowInside(n, w, r);
    var spliced := Splice(flat, Offset(r, w), row);
    forall s | 0 <= s < n
      ensures Row(spliced, n, w, s) == if s == r then row else Row(flat, n, w, s)
    {
      RowInside(n, w, s);
      if s < r {
        RowsApart(w, s, r);
      } else if r < s {
        RowsApart(w, r, s);
      }
    }
  }

  /** Equal matrices come from equal buffers. */
  lemma {:induction false} RowsInjective<T>(a: seq<T>, b: seq<T>, n: nat, w: nat)
    requires |a| == |b| == Offset(n, w)
    requires Rows(a, n, w) == Rows(b, n, w)
    ensures a == b
  {
    forall i | 0 <= i < |a|
      ensures a[i] == b[i]
    {
      var r := CellRow(n, w, i);
      RowInside(n, w, r);
      assert Row(a, n, w, r) == Row(b, n, w, r);
      assert a[i] == Row(a, n, w, r)[i - Offset(r, w)];
      assert b[i] == Row(b, n, w, r)[i - Offset(r, w)];
    }
  }

  lemma {:induction false} CellRow(n: nat, w: nat, i: nat) returns (r: nat)
    requires i < Offset(n, w)
    ensures r < n && Offset(r, w) <= i < Offset(r, w) + w
  {
    if i >= Offset(n - 1, w) {
      r := n - 1;
    } else {
      r := CellRow(n - 1, w, i);
    }
  }

  /** The flat buffer that holds a matrix. */
  function Flatten<T>(m: seq<seq<T>>, w: nat): (flat: seq<T>)
    requires forall r :: 0 <= r < |m| ==> |m[r]| == w
    ensures |flat| == Offset(|m|, w)
  {
    if |m| == 0 then [] else Flatten(m[..|m| - 1], w) + m[|m| - 1]
  }

  lemma {:induction false} RowsFlatten<T>(m: seq<seq<T>>, w: nat)
    requires forall r :: 0 <= r < |m| ==> |m[r]| == w
    ensures Rows(Flatten(m, w), |m|, w) == m
  {
    var n := |m|;
    if n > 0 {
      RowsFlatten(m[..n - 1], w);
      forall r | 0 <= r < n
        ensures Row(Flatten(m, w), n, w, r) == m[r]
      {
        FlattenLast(m, w, r);
      }
    }
  }

  /** Row `r` of a flattened matrix is the row of the matrix without its last row, or the last row. */
  lemma {:induction false} FlattenLast<T>(m: seq<seq<T>>, w: nat, r: nat)
    requires forall k :: 0 <= k < |m| ==> |m[k]| == w
    requires r < |m|
    requires Rows(Flatten(m[..|m| - 1], w), |m| - 1, w) == m[..|m| - 1]
    ensures Row(Flatten(m, w), |m|, w, r) == m[r]
  {
    hide Rows;
    var n := |m|;
    var front := Flatten(m[..n - 1], w);
    assert Flatten(m, w) == front + m[n - 1];
    if r < n - 1 {
      RowInside(n - 1, w, r);
      assert Rows(front, n - 1, w)[r] == Row(front, n - 1, w, r);
      assert Row(front + m[n - 1], n, w, r) == Row(front, n - 1, w, r);
    }
  }

  lemma {:induction false} FlattenRows<T>(flat: seq<T>, n: nat, w: nat)
    requires |flat| == Offset(n, w)
    ensures Flatten(Rows(flat, n, w), w) == flat
  {
    RowsFlatten(Rows(flat, n, w), w);
    RowsInjective(Flatten(Rows(flat, n, w), w), flat, n, w);
  }

  lemma {:induction false} FlattenSetRow<T>(m: seq<seq<T>>, w: nat, r: nat, row: seq<T>)
    requires forall k :: 0 <= k < |m| ==> |m[k]| == w
    requires r < |m| && |row| == w
    ensures Offset(r, w) + w <= Offset(|m|, w)
    ensures Flatten(m, w)[Offset(r, w)..Offset(r, w) + w] == m[r]
    ensures Splice(Flatten(m, w), Offset(r, w), row) == Flatten(m[r := row], w)
  {
    var n := |m|;
    RowsFlatten(m, w);
    SetRow(Flatten(m, w), n, w, r, row);
    assert Rows(Flatten(m, w), n, w)[r] == Row(Flatten(m, w), n, w, r);
    FlattenRows(Splice(Flatten(m, w), Offset(r, w), row), n, w);
  }
}
