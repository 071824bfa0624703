/** A bump allocator over a fixed capacity: power-of-two alignment by bit masks, every sum
    guarded against 64-bit overflow. */
module Workspace {
  import opened Prelude

  // ----- bits -----

  function Pow2(k: nat): (p: nat)
    ensures p >= 1
  {
    if k == 0 then 1 else 2 * Pow2(k - 1)
  }

  ghost predicate PowerOfTwo(n: nat) { exists k: nat :: n == Pow2(k) }

  function BitAnd(a: nat, b: nat): nat {
    if a == 0 || b == 0 then 0
    else 2 * BitAnd(a / 2, b / 2) + if a % 2 == 1 && b % 2 == 1 then 1 else 0
  }

  /** Complement of a 64-bit value. */
  function BitNot(a: nat): nat
    requires a <= U64_MAX
  {
    U64_MAX - a
  }

  /** `n & (n - 1)` is zero exactly for powers of two. */
  lemma {:induction false} PowerTest(n: nat)
    requires n > 0
    ensures BitAnd(n, n - 1) == 0 <==> PowerOfTwo(n)
  {
    if n == 1 {
      assert n == Pow2(0);
    } else if n % 2 == 0 {
      PowerTest(n / 2);
      HalfPower(n);
      assert (n - 1) / 2 == n / 2 - 1;
    } else {
      OddPower(n);
      AndSelf(n / 2);
      assert (n - 1) / 2 == n / 2;
    }
  }

  lemma HalfPower(n: nat)
    requires n > 1 && n % 2 == 0
    ensures PowerOfTwo(n) <==> PowerOfTwo(n / 2)
  {
    if PowerOfTwo(n) {
      var k: nat :| n == Pow2(k);
      assert n / 2 == Pow2(k - 1);
    }
    if PowerOfTwo(n / 2) {
      var k: nat :| n / 2 == Pow2(k);
      assert n == Pow2(k + 1);
    }
  }

  lemma OddPower(n: nat)
    requires n > 1 && n % 2 == 1
    ensures !PowerOfTwo(n)
  {
    forall k: nat
      ensures n != Pow2(k)
    {
    }
  }

  lemma {:induction false} AndSelf(n: nat)
    ensures BitAnd(n, n) == n
  {
    if n > 0 {
      AndSelf(n / 2);
    }
  }

  lemma {:induction false} Pow2Add(j: nat, k: nat)
    ensures Pow2(j + k) == Pow2(j) * Pow2(k)
  {
    if j > 0 {
      Pow2Add(j - 1, k);
    }
  }

  lemma {:induction false} Pow2Grows(j: nat, k: nat)
    requires j <= k
    ensures Pow2(j) <= Pow2(k)
    decreases k
  {
    if j < k {
      Pow2Grows(j, k - 1);
    }
  }

  lemma Pow2Values()
    ensures Pow2(64) == U64_MAX + 1
  {
    assert Pow2(8) == 256;
    Pow2Add(8, 8);
    assert Pow2(16) == 0x1_0000;
    Pow2Add(16, 16);
    assert Pow2(32) == 0x1_0000_0000;
    Pow2Add(32, 32);
  }

  lemma {:induction false} AndOnes(x: nat, w: nat)
    requires x < Pow2(w)
    ensures BitAnd(x, Pow2(w) - 1) == x
  {
    if w > 0 && x > 0 {
      AndOnes(x / 2, w - 1);
      assert (Pow2(w) - 1) / 2 == Pow2(w - 1) - 1;
    }
  }

  lemma ModTwice(x: nat, p: nat)
    requires p > 0
    ensures x % (2 * p) == x % 2 + 2 * (x / 2 % p)
  {
    var h := x / 2;
    var q, r := h / p, h % p;
    assert h == p * q + r;
    assert x == (2 * p) * q + (2 * r + x % 2);
    QuotientUnique(x, 2 * p, q, 2 * r + x % 2);
  }

  /** Masking with the complement of `2^k - 1` clears the low `k` bits. */
  lemma {:induction false} MaskClears(x: nat, w: nat, k: nat)
    requires x < Pow2(w) && k <= w
    ensures Pow2(k) <= Pow2(w) && BitAnd(x, Pow2(w) - Pow2(k)) == x - x % Pow2(k)
  {
    Pow2Grows(k, w);
    if k == 0 {
      AndOnes(x, w);
    } else {
      MaskClears(x / 2, w - 1, k - 1);
      ModTwice(x, Pow2(k - 1));
      assert (Pow2(w) - Pow2(k)) / 2 == Pow2(w - 1) - Pow2(k - 1);
    }
  }

  // ----- rounding up -----

  /** The least multiple of `a` that is at least `n`. */
  function RoundUp(n: nat, a: nat): (r: nat)
    requires a > 0
    ensures r % a == 0 && n <= r < n + a
  {
    RoundUpFacts(n, a);
    n + (a - 1) - (n + (a - 1)) % a
  }

  lemma RoundUpFacts(n: nat, a: nat)
    requires a > 0
    ensures (n + (a - 1) - (n + (a - 1)) % a) % a == 0
  {
    var x := n + (a - 1);
    var q := x / a;
    assert x == a * q + x % a;
    QuotientUnique(a * q, a, q, 0);
  }

  /** The masked sum is the rounded-up value. */
  lemma MaskIsRoundUp(used: nat, k: nat)
    requires k <= 64 && used + (Pow2(k) - 1) <= U64_MAX
    ensures Pow2(k) - 1 <= U64_MAX
    ensures BitAnd(used + (Pow2(k) - 1), BitNot(Pow2(k) - 1)) == RoundUp(used, Pow2(k))
  {
    Pow2Values();
    MaskClears(used + (Pow2(k) - 1), 64, k);
  }

  /** Where the guard on the sum fires, no 64-bit capacity could hold the rounded-up value. */
  lemma GuardIsExact(used: nat, k: nat)
    requires k <= 64 && used + (Pow2(k) - 1) > U64_MAX
    ensures RoundUp(used, Pow2(k)) > U64_MAX
  {
    hide Pow2, RoundUp;
    Pow2Values();
    Pow2Add(64 - k, k);
    RoundUpIsMultiple(used, Pow2(k));
    var a, x := Pow2(k), used + (Pow2(k) - 1);
    QuotientAtLeast(x, a, Pow2(64 - k));
    MulLe(Pow2(64 - k), x / a, a);
  }

  lemma RoundUpIsMultiple(n: nat, a: nat)
    requires a > 0
    ensures RoundUp(n, a) == (n + (a - 1)) / a * a
  {
    var x := n + (a - 1);
    assert x == a * (x / a) + x % a;
  }

  lemma QuotientAtLeast(x: nat, a: nat, c: nat)
    requires a > 0 && c * a <= x
    ensures c <= x / a
  {
    assert x == a * (x / a) + x % a;
    if x / a < c {
      MulLe(x / a + 1, c, a);
    }
  }

  lemma {:induction false} AlignmentSmall(k: nat)
    requires Pow2(k) <= U64_MAX
    ensures k < 64
  {
    Pow2Values();
    if k >= 64 {
      Pow2Grows(64, k);
    }
  }

  // ----- the allocator -----

  /** Where a request goes, in unbounded arithmetic. */
  ghost function Place(capacity: nat, used: nat, bytes: nat, alignment: nat): Option<nat> {
    if PowerOfTwo(alignment) && RoundUp(used, alignment) + bytes <= capacity then Some(RoundUp(used, alignment)) else None
  }

  /** The first multiple of a power of two that is not in use, with room behind it. */
  ghost predicate IsLeastPlace(capacity: nat, used: nat, bytes: nat, alignment: nat, at: nat) {
    && (exists k: nat :: alignment == Pow2(k)) && alignment > 0
    && used <= at && at % alignment == 0 && at + bytes <= capacity
    && forall b: nat :: used <= b < at ==> b % alignment != 0
  }

  lemma PlaceIsLeast(capacity: nat, used: nat, bytes: nat, alignment: nat)
    ensures forall at: nat :: IsLeastPlace(capacity, used, bytes, alignment, at) <==> Place(capacity, used, bytes, alignment) == Some(at)
  {
    hide Pow2;
    if PowerOfTwo(alignment) && alignment > 0 {
      var first := RoundUp(used, alignment);
      forall b: nat | used <= b && b % alignment == 0
        ensures first <= b
      {
        LeastMultiple(used, alignment, b);
      }
    }
  }

  lemma LeastMultiple(n: nat, a: nat, b: nat)
    requires a > 0 && n <= b && b % a == 0
    ensures RoundUp(n, a) <= b
  {
    hide RoundUp;
    var r := RoundUp(n, a);
    MultipleGap(b / a, r / a, a);
    assert r == a * (r / a) && b == a * (b / a);
  }

  lemma MultipleGap(q: nat, p: nat, a: nat)
    ensures a * p <= a * q || a * q + a <= a * p
  {
    if p <= q {
      MulLe(p, q, a);
    } else {
      MulLe(q + 1, p, a);
      assert a * (q + 1) == a * q + a;
    }
  }

  ghost function UsedAfter(capacity: nat, used: nat, bytes: nat, alignment: nat): (u: nat)
    ensures used <= capacity ==> used <= u <= capacity
  {
    var at := Place(capacity, used, bytes, alignment);
    if at.Some? && bytes != 0 then at.value + bytes else used
  }

  class WorkspaceLayout {
    const capacity: nat
    var used: nat

    ghost predicate Valid()
      reads this
    {
      used <= capacity <= U64_MAX
    }

    constructor (capacity: nat)
      requires capacity <= U64_MAX
      ensures Valid() && this.capacity == capacity && used == 0
    {
      this.capacity := capacity;
      used := 0;
    }

    /** The 64-bit code does what unbounded arithmetic would; a failure changes nothing. */
    method Allocate(bytes: nat, alignment: nat) returns (r: Option<nat>)
      requires Valid() && bytes <= U64_MAX && alignment <= U64_MAX
      modifies this
      ensures Valid()
      ensures r == Place(capacity, old(used), bytes, alignment)
      ensures used == UsedAfter(capacity, old(used), bytes, alignment)
      ensures r.Some? ==> IsLeastPlace(capacity, old(used), bytes, alignment, r.value)
      ensures r.None? ==> !PowerOfTwo(alignment) || forall at: nat :: !IsLeastPlace(capacity, old(used), bytes, alignment, at)
      ensures used == if r.Some? && bytes > 0 then r.value + bytes else old(used)
    {
      hide BitAnd, Pow2, RoundUp, IsLeastPlace;
      PlaceIsLeast(capacity, used, bytes, alignment);
      if alignment == 0 {
        return None;
      }
      PowerTest(alignment);
      if BitAnd(alignment, alignment - 1) != 0 {
        return None;
      }
      var mask := alignment - 1;
      ghost var k: nat :| alignment == Pow2(k);
      AlignmentSmall(k);
      if used > U64_MAX - mask {
        GuardIsExact(used, k);
        return None;
      }
      var aligned := BitAnd(used + mask, BitNot(mask));
      MaskIsRoundUp(used, k);
      if aligned > U64_MAX - bytes {
        return None;
      }
      var next := aligned + bytes;
      if next > capacity {
        return None;
      }
      if bytes != 0 {
        used := next;
      }
      r := Some(aligned);
    }

    method Reset()
      requires Valid()
      modifies this
      ensures Valid() && used == 0
    {
      used := 0;
    }

    /** A run of requests since the last reset. */
    method AllocateAll(requests: seq<Request>) returns (placed: seq<Option<nat>>)
      requires Valid() && used == 0 && forall i :: 0 <= i < |requests| ==> requests[i].bytes <= U64_MAX && requests[i].alignment <= U64_MAX
      modifies this
      ensures Valid() && placed == Placements(capacity, requests) && used == UsedBy(capacity, requests)
    {
      hide Place, UsedAfter;
      placed := [];
      for i := 0 to |requests|
        invariant Valid() && placed == Placements(capacity, requests[..i]) && used == UsedBy(capacity, requests[..i])
      {
        assert requests[..i + 1][..i] == requests[..i];
        var at := Allocate(requests[i].bytes, requests[i].alignment);
        placed := placed + [at];
      }
      assert requests[..|requests|] == requests;
    }
  }

  // ----- runs -----

  datatype Request = Request(bytes: nat, alignment: nat)

  ghost function UsedBy(capacity: nat, requests: seq<Request>): (u: nat)
    ensures u <= capacity
  {
    if |requests| == 0 then 0
    else
      var last := requests[|requests| - 1];
      UsedAfter(capacity, UsedBy(capacity, requests[..|requests| - 1]), last.bytes, last.alignment)
  }

  ghost function Placements(capacity: nat, requests: seq<Request>): (placed: seq<Option<nat>>)
    ensures |placed| == |requests|
  {
    if |requests| == 0 then []
    else
      var front, last := requests[..|requests| - 1], requests[|requests| - 1];
      Placements(capacity, front) + [Place(capacity, UsedBy(capacity, front), last.bytes, last.alignment)]
  }

  lemma {:induction false} PlacementAt(capacity: nat, requests: seq<Request>, i: nat)
    requires i < |requests|
    ensures Placements(capacity, requests)[i] == Place(capacity, UsedBy(capacity, requests[..i]), requests[i].bytes, requests[i].alignment)
  {
    hide Place, UsedAfter;
    if i < |requests| - 1 {
      PlacementAt(capacity, requests[..|requests| - 1], i);
      assert requests[..|requests| - 1][..i] == requests[..i];
    }
  }

  lemma {:induction false} UsedGrows(capacity: nat, requests: seq<Request>, i: nat, j: nat)
    requires i <= j <= |requests|
    ensures UsedBy(capacity, requests[..i]) <= UsedBy(capacity, requests[..j])
    decreases j
  {
    hide UsedAfter;
    if i < j {
      UsedGrows(capacity, requests, i, j - 1);
      assert requests[..j][..j - 1] == requests[..j - 1];
    }
  }

  /** Every range handed out is aligned and inside the capacity, and no two overlap. */
  lemma {:induction false} RangesApart(capacity: nat, requests: seq<Request>, i: nat, j: nat)
    requires i < j < |requests|
    requires Placements(capacity, requests)[i].Some? && Placements(capacity, requests)[j].Some?
    ensures
      var a, b := Placements(capacity, requests)[i].value, Placements(capacity, requests)[j].value;
      && requests[i].alignment > 0 && a % requests[i].alignment == 0 && a + requests[i].bytes <= capacity
      && requests[j].alignment > 0 && b % requests[j].alignment == 0 && b + requests[j].bytes <= capacity
      && (requests[i].bytes == 0 || a + requests[i].bytes <= b)
  {
    PlacementAt(capacity, requests, i);
    PlacementAt(capacity, requests, j);
    assert requests[..i + 1][..i] == requests[..i];
    UsedGrows(capacity, requests, i + 1, j);
  }
}
