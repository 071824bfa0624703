/** Types and arithmetic shared by every component: results, machine widths,
    and the overflow-checked operations the C++ sources write by hand. */
module Prelude {
  datatype Option<+T> = None | Some(value: T)

  /** Only acceptance or rejection is modelled; message texts are not. */
  datatype Result<+T> = Ok(value: T) | Err

  const U32_MAX: nat := 0xFFFF_FFFF
  const U64_MAX: nat := 0xFFFF_FFFF_FFFF_FFFF
  const I32_MAX: nat := 0x7FFF_FFFF
  const I64_MAX: nat := 0x7FFF_FFFF_FFFF_FFFF

  type byte = b: int | 0 <= b < 256

  /** Unsigned addition with the guard `right > max - left`. */
  function CheckedAdd(left: nat, right: nat, max: nat): (r: Option<nat>)
    requires left <= max
    ensures r.Some? <==> left + right <= max
    ensures r.Some? ==> r.value == left + right
  {
    if right > max - left then None else Some(left + right)
  }

  /** Unsigned multiplication with the guard `left != 0 && right > max / left`. */
  function CheckedMul(left: nat, right: nat, max: nat): (r: Option<nat>)
    ensures r.Some? <==> left * right <= max
    ensures r.Some? ==> r.value == left * right
  {
    if left == 0 then
      Some(0)
    else if right > max / left then
      MulExceeds(left, right, max);
      None
    else
      MulFits(left, right, max);
      Some(left * right)
  }

  lemma MulLe(a: nat, b: nat, c: nat)
    requires a <= b
    ensures a * c <= b * c && c * a <= c * b
  {
  }

  lemma ProductFits(a: nat, b: nat)
    requires a <= U32_MAX && b <= U32_MAX
    ensures a * b <= U64_MAX
  {
    MulLe(a, U32_MAX, b);
    MulLe(b, U32_MAX, U32_MAX);
  }

  lemma MulExceeds(left: nat, right: nat, max: nat)
    requires 0 < left && right > max / left
    ensures left * right > max
  {
    MulLe(max / left + 1, right, left);
    assert max == left * (max / left) + max % left;
  }

  lemma MulFits(left: nat, right: nat, max: nat)
    requires 0 < left && right <= max / left
    ensures left * right <= max
  {
    MulLe(right, max / left, left);
    assert max == left * (max / left) + max % left;
  }

  lemma Associate<T>(x: seq<T>, y: seq<T>, z: seq<T>)
    ensures (x + y) + z == x + (y + z)
  {
  }

  lemma QuotientUnique(n: nat, d: nat, q: nat, r: nat)
    requires d > 0 && n == d * q + r && r < d
    ensures n / d == q && n % d == r
  {
    var p, s := n / d, n % d;
    assert n == d * p + s && d * (p - q) == r - s;
    if p > q {
      assert d * (p - q) >= d by { MulLe(1, p - q, d); }
    } else if p < q {
      assert d * (q - p) >= d by { MulLe(1, q - p, d); }
    }
  }

  // ----- finite sets of positions -----

  /** The `n` positions from `first` on. */
  ghost function Interval(first: nat, n: nat): (s: set<nat>)
    ensures forall i :: i in s <==> first <= i < first + n
    ensures |s| == n
  {
    if n == 0 then {} else Interval(first, n - 1) + {first + n - 1}
  }

  lemma {:induction false} SubsetCount(a: set<nat>, b: set<nat>)
    requires a <= b
    ensures |a| <= |b|
  {
    if a != {} {
      var x :| x in a;
      SubsetCount(a - {x}, b - {x});
    }
  }
}
