/** The least-squares slope both trend detectors compute, and its laws. */
module Regression {
  import opened RealArith
  import opened Sequences

  /** f(0) + ... + f(n - 1). */
  function SumTo(f: int -> real, n: nat): real {
    if n == 0 then 0.0 else SumTo(f, n - 1) + f(n - 1)
  }

  function ValueAt(v: seq<real>): int -> real {
    i => if 0 <= i < |v| then v[i] else 0.0
  }

  function Mean(v: seq<real>): real
    requires v != []
  {
    SumTo(ValueAt(v), |v|) / |v| as real
  }

  /** The distance of index i from the middle of n indices. */
  function Offset(n: nat): int -> real {
    i => i as real - (n as real - 1.0) / 2.0
  }

  function Product(x: real, y: real): real {
    x * y
  }

  function Times(f: int -> real, g: int -> real): int -> real {
    i => Product(f(i), g(i))
  }

  function Minus(f: int -> real, c: real): int -> real {
    i => f(i) - c
  }

  function Numerator(v: seq<real>): real
    requires v != []
  {
    SumTo(Times(Offset(|v|), Minus(ValueAt(v), Mean(v))), |v|)
  }

  function Denominator(n: nat): real {
    SumTo(Times(Offset(n), Offset(n)), n)
  }

  /** The slope of the regression line over the values at 0, 1, 2, ... */
  function ComputeSlope(v: seq<real>): real
    requires v != []
  {
    if Denominator(|v|) != 0.0 then Numerator(v) / Denominator(|v|) else 0.0
  }

  /** The slope over the last n scores, scores[-n:]; zero with fewer than two. */
  function ComputeTrend(scores: seq<real>, n: int): real {
    var recent := if |scores| >= n then Drop(scores, -n) else scores;
    if |recent| < 2 then 0.0 else ComputeSlope(recent)
  }

  // ----- Sums

  lemma {:induction false} SumEqual(f: int -> real, g: int -> real, n: nat)
    requires forall i | 0 <= i < n :: f(i) == g(i)
    ensures SumTo(f, n) == SumTo(g, n)
  {
    if n > 0 {
      SumEqual(f, g, n - 1);
    }
  }

  lemma {:induction false} SumAtMost(f: int -> real, g: int -> real, n: nat)
    requires forall i | 0 <= i < n :: f(i) <= g(i)
    ensures SumTo(f, n) <= SumTo(g, n)
  {
    if n > 0 {
      SumAtMost(f, g, n - 1);
    }
  }

  function Scaled(f: int -> real, c: real): int -> real {
    i => c * f(i)
  }

  lemma {:induction false} SumScaled(f: int -> real, c: real, n: nat)
    ensures SumTo(Scaled(f, c), n) == c * SumTo(f, n)
  {
    if n > 0 {
      SumScaled(f, c, n - 1);
      Distribute(c, SumTo(f, n - 1), f(n - 1));
    }
  }

  lemma Distribute(c: real, x: real, y: real)
    ensures c * (x + y) == c * x + c * y
  {
  }

  /** Offsets sum to zero over all indices, and are never positive in total over a prefix. */
  lemma {:induction false} OffsetSum(n: nat, k: nat)
    ensures SumTo(Offset(n), k) == k as real * (k as real - n as real) / 2.0
  {
    if k > 0 {
      OffsetSum(n, k - 1);
      Triangular(k as real, n as real);
    }
  }

  lemma Triangular(k: real, n: real)
    ensures (k - 1.0) * (k - 1.0 - n) / 2.0 + (k - 1.0 - (n - 1.0) / 2.0) == k * (k - n) / 2.0
  {
  }

  /** Subtracting a constant does not change the sum of products with the offsets. */
  lemma {:induction false} ProductsMinus(f: int -> real, g: int -> real, c: real, n: nat)
    ensures SumTo(Times(f, Minus(g, c)), n) == SumTo(Times(f, g), n) - c * SumTo(f, n)
  {
    if n > 0 {
      ProductsMinus(f, g, c, n - 1);
      TermMinus(f(n - 1), g(n - 1), c, SumTo(f, n - 1));
    }
  }

  lemma TermMinus(x: real, y: real, c: real, s: real)
    ensures x * (y - c) - c * s == x * y - c * (s + x)
  {
  }

  /** The numerator is the sum of offset times value: the mean drops out. */
  lemma NumeratorIsProducts(v: seq<real>)
    requires v != []
    ensures Numerator(v) == SumTo(Times(Offset(|v|), ValueAt(v)), |v|)
  {
    ProductsMinus(Offset(|v|), ValueAt(v), Mean(v), |v|);
    OffsetSum(|v|, |v|);
    assert Mean(v) * 0.0 == 0.0;
  }

  // ----- The denominator

  lemma {:induction false} SquareSumGrows(n: nat, k: nat)
    ensures SumTo(Times(Offset(n), Offset(n)), k) >= 0.0
    ensures k >= 1 && n >= 2 ==> SumTo(Times(Offset(n), Offset(n)), k) > 0.0
  {
    if k > 0 {
      SquareSumGrows(n, k - 1);
      SquareNonNeg(Offset(n)(k - 1));
      if k == 1 && n >= 2 {
        var first := Offset(n)(0);
        MulPos(-first, -first);
        assert -first * -first == first * first;
      }
    }
  }

  /** With two or more values the denominator is never zero. */
  lemma {:induction false} DenominatorPositive(n: nat)
    requires n >= 2
    ensures Denominator(n) > 0.0
  {
    SquareSumGrows(n, n);
  }

  // ----- Exact on lines

  function Line(a: real, b: real): int -> real {
    i => a + b * i as real
  }

  lemma {:induction false} LineSum(a: real, b: real, n: nat)
    ensures SumTo(Line(a, b), n) == n as real * a + b * (n as real * (n as real - 1.0) / 2.0)
  {
    if n > 0 {
      LineSum(a, b, n - 1);
      LineStep(a, b, n as real);
    }
  }

  lemma LineStep(a: real, b: real, n: real)
    ensures (n - 1.0) * a + b * ((n - 1.0) * (n - 2.0) / 2.0) + (a + b * (n - 1.0)) == n * a + b * (n * (n - 1.0) / 2.0)
  {
    assert (n - 1.0) * (n - 2.0) / 2.0 + (n - 1.0) == n * (n - 1.0) / 2.0;
    Distribute(b, (n - 1.0) * (n - 2.0) / 2.0, n - 1.0);
  }

  lemma LineMean(total: real, a: real, b: real, n: real)
    requires n > 0.0 && total == n * a + b * (n * (n - 1.0) / 2.0)
    ensures total / n == a + b * ((n - 1.0) / 2.0)
  {
    var m := a + b * ((n - 1.0) / 2.0);
    assert m * n == total;
  }

  /** On a + b i the slope is exactly b. */
  lemma {:induction false} SlopeOfLine(v: seq<real>, a: real, b: real)
    requires |v| >= 2 && forall i | 0 <= i < |v| :: v[i] == a + b * i as real
    ensures ComputeSlope(v) == b
  {
    var n := |v|;
    var offset, mean := Offset(n), Mean(v);
    SumEqual(ValueAt(v), Line(a, b), n);
    LineSum(a, b, n);
    LineMean(SumTo(ValueAt(v), n), a, b, n as real);
    forall i | 0 <= i < n
      ensures Times(offset, Minus(ValueAt(v), mean))(i) == Scaled(Times(offset, offset), b)(i)
    {
      LineDeviation(a, b, i as real, (n as real - 1.0) / 2.0, mean);
      LineTerm(offset, Minus(ValueAt(v), mean), b, i);
    }
    SumEqual(Times(offset, Minus(ValueAt(v), mean)), Scaled(Times(offset, offset), b), n);
    SumScaled(Times(offset, offset), b, n);
    DenominatorPositive(n);
    CancelFactor(b, Denominator(n));
  }

  lemma LineTerm(f: int -> real, g: int -> real, b: real, i: int)
    requires g(i) == b * f(i)
    ensures Times(f, g)(i) == Scaled(Times(f, f), b)(i)
  {
    ProductScaled(f(i), g(i), b);
  }

  lemma ProductScaled(x: real, y: real, b: real)
    requires y == b * x
    ensures Product(x, y) == b * Product(x, x)
  {
  }

  lemma LineDeviation(a: real, b: real, i: real, middle: real, mean: real)
    requires mean == a + b * middle
    ensures a + b * i - mean == b * (i - middle)
  {
  }

  lemma CancelFactor(b: real, d: real)
    requires d > 0.0
    ensures b * d / d == b
  {
  }

  // ----- Order (Chebyshev's sum inequality)

  function PrefixSum(v: seq<real>, k: nat): real {
    SumTo(Times(Offset(|v|), ValueAt(v)), k)
  }

  function PrefixOffsets(v: seq<real>, k: nat): real {
    SumTo(Offset(|v|), k)
  }

  lemma PrefixStep(v: seq<real>, k: nat)
    requires k < |v|
    ensures PrefixSum(v, k + 1) == PrefixSum(v, k) + Offset(|v|)(k) * v[k]
    ensures PrefixOffsets(v, k + 1) == PrefixOffsets(v, k) + Offset(|v|)(k)
    ensures PrefixOffsets(v, k) <= 0.0
  {
    OffsetSum(|v|, k);
    PrefixNonPositive(k as real, |v| as real);
  }

  ghost predicate Rising(v: seq<real>) {
    forall i, j :: 0 <= i <= j < |v| ==> v[i] <= v[j]
  }

  lemma {:induction false} PrefixProducts(v: seq<real>, k: nat)
    requires 1 <= k <= |v| && Rising(v)
    ensures PrefixSum(v, k) >= v[k - 1] * PrefixOffsets(v, k)
  {
    PrefixStep(v, k - 1);
    if k == 1 {
      EmptyPrefix(PrefixSum(v, 0), PrefixOffsets(v, 0), Offset(|v|)(0), v[0]);
    } else {
      PrefixProducts(v, k - 1);
      AbelStep(PrefixSum(v, k - 1), PrefixOffsets(v, k - 1), Offset(|v|)(k - 1), v[k - 2], v[k - 1]);
    }
  }

  lemma EmptyPrefix(s: real, p: real, x: real, now: real)
    requires s == 0.0 && p == 0.0
    ensures s + x * now >= now * (p + x)
  {
  }

  lemma PrefixNonPositive(k: real, n: real)
    requires 0.0 <= k <= n
    ensures k * (k - n) / 2.0 <= 0.0
  {
    MulNonNeg(k, n - k);
    assert k * (n - k) == -(k * (k - n));
  }

  lemma AbelStep(s: real, p: real, x: real, before: real, now: real)
    requires s >= before * p && p <= 0.0 && before <= now
    ensures s + x * now >= now * (p + x)
  {
    MulNonNeg(now - before, -p);
    assert (now - before) * -p == before * p - now * p;
    Distribute(now, p, x);
  }

  /** On every non-decreasing sequence the slope is not negative. */
  lemma {:induction false} SlopeOfRising(v: seq<real>)
    requires |v| >= 2 && Rising(v)
    ensures ComputeSlope(v) >= 0.0
  {
    var n := |v|;
    NumeratorIsProducts(v);
    PrefixProducts(v, n);
    OffsetSum(n, n);
    assert v[n - 1] * 0.0 == 0.0;
    DenominatorPositive(n);
    DivMono(0.0, Numerator(v), Denominator(n));
  }

  // ----- Reversal

  function Reversed(v: seq<real>): (r: seq<real>)
    ensures |r| == |v| && forall i | 0 <= i < |r| :: r[i] == v[|v| - 1 - i]
  {
    seq(|v|, i requires 0 <= i < |v| => v[|v| - 1 - i])
  }

  /** The products of the reversed sequence are those of the original, negated, from the other end. */
  lemma ReversedTerm(v: seq<real>, i: nat)
    requires i < |v|
    ensures Times(Offset(|v|), ValueAt(Reversed(v)))(i) == -Times(Offset(|v|), ValueAt(v))(|v| - 1 - i)
  {
    var n, j := |v|, |v| - 1 - i;
    assert Offset(n)(i) == -Offset(n)(j) && ValueAt(Reversed(v))(i) == ValueAt(v)(j);
    NegatedProduct(Offset(n)(i), Offset(n)(j), ValueAt(v)(j));
  }

  /** The first k products of the reversed sequence are the negated last k of the original. */
  lemma {:induction false} ReversedSum(f: int -> real, g: int -> real, n: nat, k: nat)
    requires k <= n && forall i | 0 <= i < n :: f(i) == -g(n - 1 - i)
    ensures SumTo(f, k) == SumTo(g, n - k) - SumTo(g, n)
  {
    if k > 0 {
      ReversedSum(f, g, n, k - 1);
    }
  }

  lemma NegatedProduct(x: real, y: real, c: real)
    requires x == -y
    ensures Product(x, c) == -Product(y, c)
  {
  }

  /** Reversing the values negates the slope. */
  lemma {:induction false} SlopeOfReversed(v: seq<real>)
    requires |v| >= 2
    ensures ComputeSlope(Reversed(v)) == -ComputeSlope(v)
  {
    NumeratorIsProducts(v);
    NumeratorIsProducts(Reversed(v));
    forall i | 0 <= i < |v|
      ensures Times(Offset(|v|), ValueAt(Reversed(v)))(i) == -Times(Offset(|v|), ValueAt(v))(|v| - 1 - i)
    {
      ReversedTerm(v, i);
    }
    ReversedSum(Times(Offset(|v|), ValueAt(Reversed(v))), Times(Offset(|v|), ValueAt(v)), |v|, |v|);
    DenominatorPositive(|v|);
    NegatedQuotient(Numerator(v), Denominator(|v|));
  }

  lemma NegatedQuotient(x: real, d: real)
    requires d > 0.0
    ensures -x / d == -(x / d)
  {
  }

  // ----- Bound

  /** Half-integers: an offset is zero or at least one half away from it. */
  lemma OffsetStep(n: nat, i: int)
    ensures var x := Offset(n)(i); x == 0.0 || x >= 0.5 || x <= -0.5
  {
    var x := Offset(n)(i);
    assert 2.0 * x == (2 * i - n + 1) as real;
  }

  lemma TermBound(x: real, y: real)
    requires (x == 0.0 || x >= 0.5 || x <= -0.5) && -0.5 <= y <= 0.5
    ensures -Product(x, x) <= Product(x, y) <= Product(x, x)
  {
    if x >= 0.5 {
      MulNonNeg(x, x - y);
      MulNonNeg(x, x + y);
    } else if x <= -0.5 {
      MulNonNeg(-x, -x - y);
      MulNonNeg(-x, -x + y);
    }
  }

  function Negated(f: int -> real): int -> real {
    i => -f(i)
  }

  lemma {:induction false} SumNegated(f: int -> real, n: nat)
    ensures SumTo(Negated(f), n) == -SumTo(f, n)
  {
    if n > 0 {
      SumNegated(f, n - 1);
    }
  }

  lemma CentredTerm(f: int -> real, g: int -> real, i: nat)
    requires -0.5 <= g(i) <= 0.5
    requires f(i) == 0.0 || f(i) >= 0.5 || f(i) <= -0.5
    ensures Negated(Times(f, f))(i) <= Times(f, g)(i) <= Times(f, f)(i)
  {
    TermBound(f(i), g(i));
  }

  /** For values in [0, 1] the slope is at most one in magnitude. */
  lemma {:induction false} SlopeBound(v: seq<real>)
    requires |v| >= 2 && forall i | 0 <= i < |v| :: 0.0 <= v[i] <= 1.0
    ensures -1.0 <= ComputeSlope(v) <= 1.0
  {
    var n := |v|;
    var offset := Offset(n);
    var centred, squares := Times(offset, Minus(ValueAt(v), 0.5)), Times(offset, offset);
    NumeratorIsProducts(v);
    ProductsMinus(offset, ValueAt(v), 0.5, n);
    OffsetSum(n, n);
    forall i | 0 <= i < n
      ensures Negated(squares)(i) <= centred(i) <= squares(i)
    {
      OffsetStep(n, i);
      CentredTerm(offset, Minus(ValueAt(v), 0.5), i);
    }
    SumAtMost(centred, squares, n);
    SumAtMost(Negated(squares), centred, n);
    SumNegated(squares, n);
    DenominatorPositive(n);
    DivBound(Numerator(v), 1.0, Denominator(n));
    DivBound(Numerator(v), -1.0, Denominator(n));
  }

  /** The slope of a constant sequence is zero. */
  lemma SlopeOfConstant(v: seq<real>, c: real)
    requires |v| >= 2 && forall i | 0 <= i < |v| :: v[i] == c
    ensures ComputeSlope(v) == 0.0
  {
    SlopeOfLine(v, c, 0.0);
  }

  /** The bounds carry over to the trend, whatever the trend window. */
  lemma {:induction false} TrendBound(scores: seq<real>, n: int)
    requires forall i | 0 <= i < |scores| :: 0.0 <= scores[i] <= 1.0
    ensures -1.0 <= ComputeTrend(scores, n) <= 1.0
  {
    var recent := if |scores| >= n then Drop(scores, -n) else scores;
    if |recent| >= 2 {
      forall i | 0 <= i < |recent| ensures 0.0 <= recent[i] <= 1.0 {
        assert recent[i] == scores[|scores| - |recent| + i];
      }
      SlopeBound(recent);
    }
  }

  lemma TrendOfRising(scores: seq<real>, n: int)
    requires Rising(scores)
    ensures ComputeTrend(scores, n) >= 0.0
  {
    var recent := if |scores| >= n then Drop(scores, -n) else scores;
    if |recent| >= 2 {
      assert forall i | 0 <= i < |recent| :: recent[i] == scores[|scores| - |recent| + i];
      SlopeOfRising(recent);
    }
  }
}
