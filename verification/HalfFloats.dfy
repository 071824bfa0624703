/** `f16_to_float`: widening a half-precision number keeps its value, whatever bits it is given.
    Fields that do not overlap are joined by addition, as `|` joins them. */
module HalfFloats {
  import opened Prelude
  import opened Workspace

  // ----- what the bits of a number stand for -----

  /** Sign, exponent and fraction of a half-precision number. */
  function Sign16(h: nat): nat { h / 0x8000 }

  function Exponent16(h: nat): nat { h / 0x400 % 0x20 }

  function Fraction16(h: nat): nat { h % 0x400 }

  /** Its distance from zero, in units of the least positive half-precision number. */
  function Magnitude16(h: nat): nat {
    if Exponent16(h) == 0 then Fraction16(h) else (0x400 + Fraction16(h)) * Pow2(Exponent16(h) - 1)
  }

  function Sign32(b: nat): nat { b / 0x8000_0000 }

  function Exponent32(b: nat): nat { b / 0x80_0000 % 0x100 }

  function Fraction32(b: nat): nat { b % 0x80_0000 }

  /** The same in units of the least positive single-precision number, which is `2^125` times smaller. */
  function Magnitude32(b: nat): nat {
    if Exponent32(b) == 0 then Fraction32(b) else (0x80_0000 + Fraction32(b)) * Pow2(Exponent32(b) - 1)
  }

  // ----- the conversion -----

  lemma Joined(sign: nat, exponent: nat, fraction: nat)
    requires sign < 2 && exponent < 0x100 && fraction < 0x80_0000
    ensures
      var b := sign * 0x8000_0000 + exponent * 0x80_0000 + fraction;
      b <= U32_MAX && Sign32(b) == sign && Exponent32(b) == exponent && Fraction32(b) == fraction
  {
  }

  /** A half-precision number that is not normal is doubled until its leading bit is where a normal number has it. */
  method Normalize(fraction: nat) returns (mantissa: nat, doublings: nat)
    requires 0 < fraction < 0x400
    ensures 0x400 <= mantissa < 0x800 && mantissa == fraction * Pow2(doublings) && 0 < doublings <= 10
  {
    mantissa, doublings := fraction, 0;
    while mantissa < 0x400
      invariant 0 < mantissa < 0x800 && mantissa == fraction * Pow2(doublings)
      invariant doublings > 0 ==> mantissa % 2 == 0
      decreases 0x800 - mantissa
    {
      DoublePower(fraction, doublings);
      mantissa := 2 * mantissa;
      doublings := doublings + 1;
    }
    if doublings > 10 {
      Pow2Grows(11, doublings);
      assert Pow2(11) == 0x800 by { Power11(); }
      MulLe(1, fraction, Pow2(doublings));
    }
  }

  lemma Power11()
    ensures Pow2(10) == 0x400 && Pow2(11) == 0x800 && Pow2(13) == 0x2000
  {
    assert Pow2(5) == 0x20;
    Pow2Add(5, 5);
    Pow2Add(10, 3);
    assert Pow2(3) == 8;
  }

  lemma DoublePower(f: nat, k: nat)
    ensures f * Pow2(k + 1) == 2 * (f * Pow2(k))
  {
  }

  /** Thirteen places of the fraction and the difference of the exponents make up the difference of the units. */
  lemma NormalValue(m: nat, e: nat)
    requires e > 0
    ensures (0x2000 * m) * Pow2(e + 111) == (m * Pow2(e - 1)) * Pow2(125)
  {
    hide Pow2;
    Power11();
    Pow2Add(13, e + 111);
    Pow2Add(e - 1, 125);
    Regroup(0x2000, m, Pow2(e + 111));
    Regroup(Pow2(e - 1), m, Pow2(125));
  }

  lemma SubnormalValue(fraction: nat, k: nat)
    requires 0 < k <= 10
    ensures (0x2000 * (fraction * Pow2(k))) * Pow2(112 - k) == fraction * Pow2(125)
  {
    hide Pow2;
    Power11();
    Pow2Add(k, 112 - k);
    Pow2Add(13, 112);
    Regroup(0x2000, fraction * Pow2(k), Pow2(112 - k));
    Swap(fraction, Pow2(k), 0x2000, Pow2(112 - k));
  }

  lemma Regroup(a: nat, m: nat, b: nat)
    ensures (a * m) * b == m * (a * b) && (m * a) * b == m * (a * b)
  {
  }

  lemma Swap(f: nat, p: nat, a: nat, q: nat)
    ensures (f * p) * (a * q) == f * (a * (p * q))
  {
    Regroup(p, f, a * q);
    Regroup(a, p, q);
  }

  /** Finite numbers keep sign and value, infinities stay infinite, and what is not a number stays none, with its payload. */
  method ToFloat(h: nat) returns (b: nat)
    requires h < 0x1_0000
    ensures b <= U32_MAX && Sign32(b) == Sign16(h)
    ensures Exponent16(h) != 0x1F ==> Exponent32(b) != 0xFF && Magnitude32(b) == Magnitude16(h) * Pow2(125)
    ensures Exponent16(h) == 0x1F ==> Exponent32(b) == 0xFF && Fraction32(b) == 0x2000 * Fraction16(h)
  {
    hide Pow2;
    var sign, exponent, mantissa := h / 0x8000, h / 0x400 % 0x20, h % 0x400;
    if exponent == 0 {
      if mantissa == 0 {
        b := sign * 0x8000_0000;
        Joined(sign, 0, 0);
      } else {
        var normal, doublings := Normalize(mantissa);
        b := sign * 0x8000_0000 + (-14 - doublings + 127) * 0x80_0000 + 0x2000 * (normal - 0x400);
        Joined(sign, 113 - doublings, 0x2000 * (normal - 0x400));
        SubnormalValue(mantissa, doublings);
      }
    } else if exponent == 0x1F {
      b := sign * 0x8000_0000 + 0xFF * 0x80_0000 + 0x2000 * mantissa;
      Joined(sign, 0xFF, 0x2000 * mantissa);
    } else {
      b := sign * 0x8000_0000 + (exponent - 15 + 127) * 0x80_0000 + 0x2000 * mantissa;
      Joined(sign, exponent + 112, 0x2000 * mantissa);
      NormalValue(0x400 + mantissa, exponent);
    }
  }
}
