/** Decimal rounding as the program performs it: nearest grid point, ties to the even one. */
module Rounding {
  import opened RealArith

  function Abs(x: real): (r: real)
    ensures r >= 0.0 && (r == x || r == -x)
  {
    if x < 0.0 then -x else x
  }

  /** Restricts x to the unit interval. */
  function Clamp(x: real): (r: real)
    ensures 0.0 <= r <= 1.0
    ensures 0.0 <= x <= 1.0 ==> r == x
  {
    if x < 0.0 then 0.0 else if x > 1.0 then 1.0 else x
  }

  /** Clamping moves a number to the nearest one of the unit interval. */
  lemma ClampNearest(x: real, y: real)
    requires 0.0 <= y <= 1.0
    ensures Abs(Clamp(x) - x) <= Abs(y - x) && (Abs(Clamp(x) - x) == Abs(y - x) ==> y == Clamp(x))
  {
  }

  predicate IsNearestEven(x: real, r: int) {
    && -0.5 <= x - r as real <= 0.5
    && (x - r as real == 0.5 || x - r as real == -0.5 ==> r % 2 == 0)
  }

  function Nearest(x: real): (r: int)
    ensures IsNearestEven(x, r)
  {
    var below := x.Floor;
    var fraction := x - below as real;
    if fraction < 0.5 || (fraction == 0.5 && below % 2 == 0) then below else below + 1
  }

  lemma NearestUnique(x: real, r: int)
    requires IsNearestEven(x, r)
    ensures r == Nearest(x)
  {
    var s := Nearest(x);
    assert -1.0 <= r as real - s as real <= 1.0;
  }

  lemma NearestMonotone(x: real, y: real)
    requires x <= y
    ensures Nearest(x) <= Nearest(y)
  {
  }

  lemma NearestOdd(x: real)
    ensures Nearest(-x) == -Nearest(x)
  {
    var r := Nearest(x);
    assert (-r) as real == -(r as real);
    NearestUnique(-x, -r);
  }

  /** Python's round(x, d) with scale = 10^d. */
  function Quantize(x: real, scale: real): (r: real)
    requires scale > 0.0
  {
    Nearest(x * scale) as real / scale
  }

  /** x is a multiple of 1 / scale. */
  predicate OnGrid(x: real, scale: real) {
    (x * scale).Floor as real == x * scale
  }

  lemma QuantizeOnGrid(x: real, scale: real)
    requires scale > 0.0
    ensures OnGrid(Quantize(x, scale), scale)
  {
    var k := Nearest(x * scale);
    calc {
      Quantize(x, scale) * scale;
      k as real / scale * scale;
      k as real;
    }
    assert (k as real).Floor == k;
  }

  lemma {:induction false} QuantizeError(x: real, scale: real)
    requires scale > 0.0
    ensures -0.5 / scale <= Quantize(x, scale) - x <= 0.5 / scale
  {
    var k := Nearest(x * scale);
    var diff := k as real - x * scale;
    assert -0.5 <= diff <= 0.5;
    calc {
      Quantize(x, scale) - x;
      k as real / scale - x * scale / scale;
      diff / scale;
    }
    DivMono(-0.5, diff, scale);
    DivMono(diff, 0.5, scale);
  }

  lemma {:induction false} QuantizeMonotone(x: real, y: real, scale: real)
    requires scale > 0.0 && x <= y
    ensures Quantize(x, scale) <= Quantize(y, scale)
  {
    assert x * scale <= y * scale;
    NearestMonotone(x * scale, y * scale);
    DivMono(Nearest(x * scale) as real, Nearest(y * scale) as real, scale);
  }

  lemma NegatedQuotient(k: int, scale: real)
    requires scale > 0.0
    ensures (-k) as real / scale == -(k as real / scale)
  {
    assert (-k) as real == -(k as real);
  }

  lemma {:induction false} QuantizeOdd(x: real, scale: real)
    requires scale > 0.0
    ensures Quantize(-x, scale) == -Quantize(x, scale)
  {
    var k := Nearest(x * scale);
    NearestOdd(x * scale);
    assert -x * scale == -(x * scale);
    NegatedQuotient(k, scale);
  }

  /** Rounding is the identity exactly on the grid. */
  lemma {:induction false} QuantizeIdentity(x: real, scale: real)
    requires scale > 0.0
    ensures Quantize(x, scale) == x <==> OnGrid(x, scale)
  {
    QuantizeOnGrid(x, scale);
    if OnGrid(x, scale) {
      NearestUnique(x * scale, (x * scale).Floor);
      assert x * scale / scale == x;
    }
  }

  /** round(x, 6). */
  function Round6(x: real): (r: real)
    ensures -0.0000005 <= r - x <= 0.0000005
  {
    Quantize(x, 1000000.0)
  }

  /** x has at most six decimals. */
  predicate OnGrid6(x: real) {
    OnGrid(x, 1000000.0)
  }

  lemma Round6OnGrid(x: real)
    ensures OnGrid6(Round6(x))
  {
    QuantizeOnGrid(x, 1000000.0);
  }

  lemma Round6Monotone(x: real, y: real)
    requires x <= y
    ensures Round6(x) <= Round6(y)
  {
    QuantizeMonotone(x, y, 1000000.0);
  }

  lemma Round6Identity(x: real)
    requires OnGrid6(x)
    ensures Round6(x) == x
  {
    QuantizeIdentity(x, 1000000.0);
  }

  /** Rounding keeps a value between two grid points it lies between. */
  lemma Round6Between(lo: real, x: real, hi: real)
    requires lo <= x <= hi && OnGrid6(lo) && OnGrid6(hi)
    ensures lo <= Round6(x) <= hi
  {
    Round6Identity(lo);
    Round6Identity(hi);
    Round6Monotone(lo, x);
    Round6Monotone(x, hi);
  }

  lemma UnitOnGrid()
    ensures OnGrid6(0.0) && OnGrid6(1.0)
  {
  }

  lemma Round6Unit(x: real)
    requires 0.0 <= x <= 1.0
    ensures 0.0 <= Round6(x) <= 1.0
  {
    Round6Between(0.0, x, 1.0);
  }

  /** From the ends of the unit interval outwards, rounding and clamping report the end. */
  lemma BeyondUnitReported(x: real, shown: real)
    requires (x <= 0.0 && shown == 0.0) || (x >= 1.0 && shown == 1.0)
    ensures Clamp(Round6(x)) == shown
  {
    UnitOnGrid();
    if x <= 0.0 {
      Round6Identity(0.0);
      Round6Monotone(x, 0.0);
    } else {
      Round6Identity(1.0);
      Round6Monotone(1.0, x);
    }
  }

  /** The magnitude of a rounded value is the rounded magnitude. */
  lemma Round6Abs(x: real)
    ensures Abs(Round6(x)) == Round6(Abs(x))
  {
    QuantizeOdd(x, 1000000.0);
    Round6Monotone(0.0, Abs(x));
    Round6Identity(0.0);
  }
}
