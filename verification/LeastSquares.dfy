/** Why the regression slope is the least-squares slope: no line has a smaller squared misfit. */
module LeastSquares {
  import opened RealArith
  import opened Regression

  /** What is left of each value when the line a + b i is subtracted. */
  function Residual(v: seq<real>, a: real, b: real): int -> real {
    i => ValueAt(v)(i) - (a + b * i as real)
  }

  /** The sum of the squared residuals. */
  function Misfit(v: seq<real>, a: real, b: real): real {
    SumTo(Times(Residual(v, a, b), Residual(v, a, b)), |v|)
  }

  /** Where the line of the computed slope that passes through the centre of the values starts. */
  function Intercept(v: seq<real>): real
    requires v != []
  {
    Mean(v) - ComputeSlope(v) * ((|v| as real - 1.0) / 2.0)
  }

  lemma {:induction false} SumDifference(f: int -> real, g: int -> real, c: real, h: int -> real, n: nat)
    requires forall i | 0 <= i < n :: h(i) == f(i) - c * g(i)
    ensures SumTo(h, n) == SumTo(f, n) - c * SumTo(g, n)
  {
    if n > 0 {
      SumDifference(f, g, c, h, n - 1);
      Distribute(c, SumTo(g, n - 1), g(n - 1));
    }
  }

  lemma {:induction false} SumMinus(f: int -> real, c: real, n: nat)
    ensures SumTo(Minus(f, c), n) == SumTo(f, n) - c * n as real
  {
    if n > 0 {
      SumMinus(f, c, n - 1);
      Distribute(c, (n - 1) as real, 1.0);
    }
  }

  lemma ResidualAt(v: seq<real>, i: int)
    requires v != []
    ensures Residual(v, Intercept(v), ComputeSlope(v))(i)
         == Minus(ValueAt(v), Mean(v))(i) - ComputeSlope(v) * Offset(|v|)(i)
  {
    Distribute(ComputeSlope(v), Offset(|v|)(i), (|v| as real - 1.0) / 2.0);
  }

  lemma ResidualTerm(x: real, y: real, s: real, r: real)
    requires r == y - s * x
    ensures Product(x, r) == Product(x, y) - s * Product(x, x)
  {
  }

  /** The normal equations: the residuals of the computed line sum to zero, and so do their products with
      the distances of the indices from the middle. */
  lemma {:induction false} NormalEquations(v: seq<real>)
    requires |v| >= 2
    ensures var r := Residual(v, Intercept(v), ComputeSlope(v));
            SumTo(r, |v|) == 0.0 && SumTo(Times(Offset(|v|), r), |v|) == 0.0
  {
    ResidualsCancel(v);
    MomentsCancel(v);
  }

  lemma ResidualsCancel(v: seq<real>)
    requires |v| >= 2
    ensures SumTo(Residual(v, Intercept(v), ComputeSlope(v)), |v|) == 0.0
  {
    var n, s := |v|, ComputeSlope(v);
    var r, offset, deviation := Residual(v, Intercept(v), s), Offset(n), Minus(ValueAt(v), Mean(v));
    assert SumTo(r, n) == SumTo(deviation, n) - s * SumTo(offset, n) by {
      forall i | 0 <= i < n ensures r(i) == deviation(i) - s * offset(i) {
        ResidualAt(v, i);
      }
      SumDifference(deviation, offset, s, r, n);
    }
    assert SumTo(deviation, n) == 0.0 by {
      DeviationsCancel(v);
    }
    OffsetSum(n, n);
    assert s * 0.0 == 0.0;
  }

  lemma DeviationsCancel(v: seq<real>)
    requires v != []
    ensures SumTo(Minus(ValueAt(v), Mean(v)), |v|) == 0.0
  {
    SumMinus(ValueAt(v), Mean(v), |v|);
    Cancelled(SumTo(ValueAt(v), |v|), |v| as real);
  }

  lemma MomentAt(v: seq<real>, i: int)
    requires v != []
    ensures var offset, s := Offset(|v|), ComputeSlope(v);
            Times(offset, Residual(v, Intercept(v), s))(i)
            == Times(offset, Minus(ValueAt(v), Mean(v)))(i) - s * Times(offset, offset)(i)
  {
    var r, deviation := Residual(v, Intercept(v), ComputeSlope(v))(i), Minus(ValueAt(v), Mean(v))(i);
    ResidualAt(v, i);
    ResidualTerm(Offset(|v|)(i), deviation, ComputeSlope(v), r);
  }

  lemma MomentsCancel(v: seq<real>)
    requires |v| >= 2
    ensures SumTo(Times(Offset(|v|), Residual(v, Intercept(v), ComputeSlope(v))), |v|) == 0.0
  {
    var n, s := |v|, ComputeSlope(v);
    var r, offset, deviation := Residual(v, Intercept(v), s), Offset(n), Minus(ValueAt(v), Mean(v));
    forall i | 0 <= i < n
      ensures Times(offset, r)(i) == Times(offset, deviation)(i) - s * Times(offset, offset)(i)
    {
      MomentAt(v, i);
    }
    SumDifference(Times(offset, deviation), Times(offset, offset), s, Times(offset, r), n);
    DenominatorPositive(n);
    Cancelled(Numerator(v), Denominator(n));
  }

  lemma Cancelled(x: real, d: real)
    requires d > 0.0
    ensures x - x / d * d == 0.0
  {
  }

  /** Sums over the first k indices: of the squares of r, of r, of the products x r, of x, and of its squares. */
  datatype Sums = Sums(k: real, rr: real, r: real, xr: real, x: real, xx: real)

  function SumsOf(r: int -> real, x: int -> real, n: nat): Sums {
    Sums(n as real, SumTo(Times(r, r), n), SumTo(r, n), SumTo(Times(x, r), n), SumTo(x, n), SumTo(Times(x, x), n))
  }

  /** What one index adds. */
  function TermsOf(r: real, x: real): Sums {
    Sums(1.0, Product(r, r), r, Product(x, r), x, Product(x, x))
  }

  function Plus(s: Sums, i: Sums): Sums {
    Sums(s.k + i.k, s.rr + i.rr, s.r + i.r, s.xr + i.xr, s.x + i.x, s.xx + i.xx)
  }

  /** The square of r + p + t x, as a combination of the terms of r and x. */
  datatype Weights = Weights(k: real, r: real, xr: real, x: real, xx: real)

  function WeightsOf(p: real, t: real): Weights {
    Weights(p * p, 2.0 * p, 2.0 * t, 2.0 * p * t, t * t)
  }

  function Combine(w: Weights, s: Sums): real {
    s.rr + w.k * s.k + w.r * s.r + w.xr * s.xr + w.x * s.x + w.xx * s.xx
  }

  lemma CombineAdds(w: Weights, s: Sums, i: Sums)
    ensures Combine(w, Plus(s, i)) == Combine(w, s) + Combine(w, i)
  {
    Distribute(w.k, s.k, i.k);
    Distribute(w.r, s.r, i.r);
    Distribute(w.xr, s.xr, i.xr);
    Distribute(w.x, s.x, i.x);
    Distribute(w.xx, s.xx, i.xx);
  }

  lemma SquareCombined(p: real, t: real, q: real, r: real, x: real)
    requires q == r + p + t * x
    ensures Product(q, q) == Combine(WeightsOf(p, t), TermsOf(r, x))
  {
  }

  /** The squares of r + p + t x, summed. */
  lemma {:induction false} Expand(r: int -> real, x: int -> real, q: int -> real, p: real, t: real, n: nat)
    requires forall i | 0 <= i < n :: q(i) == r(i) + p + t * x(i)
    ensures SumTo(Times(q, q), n) == Combine(WeightsOf(p, t), SumsOf(r, x, n))
  {
    if n > 0 {
      var k := n - 1;
      Expand(r, x, q, p, t, k);
      SquareCombined(p, t, q(k), r(k), x(k));
      CombineAdds(WeightsOf(p, t), SumsOf(r, x, k), TermsOf(r(k), x(k)));
      assert SumsOf(r, x, n) == Plus(SumsOf(r, x, k), TermsOf(r(k), x(k)));
    }
  }

  lemma OtherLine(value: real, a: real, b: real, m: real, s: real, i: real, middle: real)
    ensures value - (a + b * i)
         == value - (m + s * i) + (m - a + (s - b) * middle) + (s - b) * (i - middle)
  {
  }

  lemma SquarePositive(x: real, square: real)
    requires square == x * x
    ensures square >= 0.0 && (x != 0.0 ==> square > 0.0)
  {
    if x >= 0.0 {
      NonNegativeProduct(x, x, square);
    } else {
      assert -x * -x == x * x;
      NonNegativeProduct(-x, -x, square);
    }
  }

  lemma NonNegativeProduct(a: real, b: real, product: real)
    requires a >= 0.0 && b >= 0.0 && product == a * b
    ensures product >= 0.0 && (a > 0.0 && b > 0.0 ==> product > 0.0)
  {
  }

  lemma Weighted(x: real, square: real, d: real)
    requires d > 0.0 && square == x * x
    ensures square * d >= 0.0 && (square * d == 0.0 ==> x == 0.0)
  {
    assert square >= 0.0 && (x != 0.0 ==> square > 0.0) by {
      SquarePositive(x, square);
    }
    NonNegativeProduct(square, d, square * d);
  }

  /** Among all lines the one of the computed slope has the least squared misfit, and it is the only one. */
  lemma {:induction false} BestLine(v: seq<real>, a: real, b: real)
    requires |v| >= 2
    ensures Misfit(v, Intercept(v), ComputeSlope(v)) <= Misfit(v, a, b)
    ensures Misfit(v, a, b) == Misfit(v, Intercept(v), ComputeSlope(v)) ==> b == ComputeSlope(v) && a == Intercept(v)
  {
    var m, s := Intercept(v), ComputeSlope(v);
    var p, t := m - a + (s - b) * ((|v| as real - 1.0) / 2.0), s - b;
    var sums := SumsOf(Residual(v, m, s), Offset(|v|), |v|);
    assert Misfit(v, a, b) == Combine(WeightsOf(p, t), sums) by {
      MisfitOf(v, a, b, p, t);
    }
    assert sums.r == 0.0 && sums.xr == 0.0 && sums.x == 0.0 && sums.xx > 0.0 by {
      NormalEquations(v);
      OffsetSum(|v|, |v|);
      DenominatorPositive(|v|);
    }
    Excess(p, t, sums);
    if t == 0.0 {
      assert (s - b) * ((|v| as real - 1.0) / 2.0) == 0.0;
    }
  }

  /** Another line's misfit in terms of the computed line's residuals. */
  lemma MisfitOf(v: seq<real>, a: real, b: real, p: real, t: real)
    requires v != [] && t == ComputeSlope(v) - b
    requires p == Intercept(v) - a + t * ((|v| as real - 1.0) / 2.0)
    ensures Misfit(v, a, b)
         == Combine(WeightsOf(p, t), SumsOf(Residual(v, Intercept(v), ComputeSlope(v)), Offset(|v|), |v|))
  {
    var n, m, s := |v|, Intercept(v), ComputeSlope(v);
    var r, q := Residual(v, m, s), Residual(v, a, b);
    forall i | 0 <= i < n ensures q(i) == r(i) + p + t * Offset(n)(i) {
      OtherLine(ValueAt(v)(i), a, b, m, s, i as real, (n as real - 1.0) / 2.0);
    }
    Expand(r, Offset(n), q, p, t, n);
  }

  lemma Excess(p: real, t: real, s: Sums)
    requires s.r == 0.0 && s.xr == 0.0 && s.x == 0.0 && s.k > 0.0 && s.xx > 0.0
    ensures s.rr <= Combine(WeightsOf(p, t), s)
    ensures Combine(WeightsOf(p, t), s) == s.rr ==> p == 0.0 && t == 0.0
  {
    var w := WeightsOf(p, t);
    Weighted(p, w.k, s.k);
    Weighted(t, w.xx, s.xx);
    assert w.r * s.r == 0.0 && w.xr * s.xr == 0.0 && w.x * s.x == 0.0;
  }

  ghost predicate IsBest(v: seq<real>, a: real, b: real) {
    forall a', b' :: Misfit(v, a, b) <= Misfit(v, a', b')
  }

  /** The computed line, and no other, is the best one. */
  lemma {:induction false} BestExactly(v: seq<real>, a: real, b: real)
    requires |v| >= 2
    ensures IsBest(v, a, b) <==> a == Intercept(v) && b == ComputeSlope(v)
  {
    forall a', b' ensures Misfit(v, Intercept(v), ComputeSlope(v)) <= Misfit(v, a', b') {
      BestLine(v, a', b');
    }
    BestLine(v, a, b);
  }
}
