/** The few facts about products and quotients of reals that the solver does not find in context. */
module RealArith {

  lemma MulNonNeg(a: real, b: real)
    requires a >= 0.0 && b >= 0.0
    ensures a * b >= 0.0
  {
  }

  lemma MulPos(a: real, b: real)
    requires a > 0.0 && b > 0.0
    ensures a * b > 0.0
  {
  }

  lemma MulMono(a: real, b: real, c: real)
    requires a <= b && c >= 0.0
    ensures a * c <= b * c
  {
  }

  lemma SquareNonNeg(a: real)
    ensures a * a >= 0.0
  {
  }

  lemma ProductInUnit(a: real, b: real)
    requires 0.0 <= a <= 1.0 && 0.0 <= b <= 1.0
    ensures 0.0 <= a * b <= 1.0
  {
    MulNonNeg(a, b);
    MulNonNeg(1.0 - a, b);
    assert (1.0 - a) * b == b - a * b;
  }

  lemma ScaledWithin(t: real, w: real, radius: real)
    requires -radius <= t <= radius && 0.0 <= w <= 1.0
    ensures -radius <= t * w <= radius
  {
    MulNonNeg(radius - t, w);
    MulNonNeg(radius + t, w);
    MulNonNeg(radius, 1.0 - w);
    assert (radius - t) * w == radius * w - t * w;
    assert (radius + t) * w == radius * w + t * w;
    assert radius * (1.0 - w) == radius - radius * w;
  }

  lemma SquareLe(x: real, y: real)
    requires y >= 0.0 && x * x <= y * y
    ensures x <= y
  {
    assert (x - y) * (x + y) == x * x - y * y;
    if x > y {
      MulPos(x - y, x + y);
    }
  }

  lemma DivMono(x: real, y: real, d: real)
    requires x <= y && d > 0.0
    ensures x / d <= y / d
  {
  }

  lemma DivBound(x: real, y: real, d: real)
    requires d > 0.0
    ensures x / d <= y <==> x <= y * d
    ensures y <= x / d <==> y * d <= x
  {
  }
}
