/** Division and multiplication facts the other modules lean on. */
module Arithmetic {
  function Min(x: nat, y: nat): nat { if x <= y then x else y }

  function Max(x: nat, y: nat): nat { if x >= y then x else y }

  function RealMin(x: real, y: real): real { if x <= y then x else y }

  function RealMax(x: real, y: real): real { if x <= y then y else x }

  function Clamp01(x: real): (r: real)
    ensures 0.0 <= r <= 1.0
  {
    RealMax(0.0, RealMin(x, 1.0))
  }

  lemma Products(a: int, b: int, q: int, r: int)
    ensures a * (b * q + r) == (a * b) * q + a * r
  {
    assert a * (b * q) == (a * b) * q;
  }

  lemma DivDiv(v: nat, a: nat, b: nat)
    requires a > 0 && b > 0
    ensures (v / a) / b == v / (a * b)
  {
    var q := v / a;
    Division(v, a);
    Division(q, b);
    Products(a, b, q / b, q % b);
    AtLeastOnce(a, b - q % b);
    Products(a, b, 1, -(q % b));
    QuotientUnique(v, a * b, q / b, a * (q % b) + v % a);
  }

  lemma AtLeastOnce(d: int, x: int)
    requires d > 0 && x >= 1
    ensures d * x >= d
  {
    assert d * (x - 1) >= 0;
  }

  lemma QuotientUnique(v: int, d: int, q: int, r: int)
    requires d > 0 && v == d * q + r && 0 <= r < d
    ensures v / d == q
  {
    var q', r' := v / d, v % d;
    Division(v, d);
    assert d * (q - q') == d * q - d * q' && d * (q' - q) == d * q' - d * q;
    if q > q' {
      AtLeastOnce(d, q - q');
    } else if q < q' {
      AtLeastOnce(d, q' - q);
    }
  }

  lemma Division(v: int, d: int)
    requires d > 0
    ensures v == d * (v / d) + v % d && 0 <= v % d < d
  {
  }

  /** Rounding a total up to a multiple of `d`. */
  lemma PadFills(total: nat, d: nat)
    requires d > 0
    ensures
      var padded := total + (d - total % d) % d;
      padded / d * d == padded
  {
    var q, r := total / d, total % d;
    Division(total, d);
    if r == 0 {
      QuotientUnique(d, d, 1, 0);
      Division(d, d);
      QuotientUnique(total, d, q, 0);
    } else {
      QuotientUnique(d - r, d, 0, d - r);
      Division(d - r, d);
      assert d * (q + 1) == d * q + d;
      QuotientUnique(total + (d - r), d, q + 1, 0);
    }
  }
}
