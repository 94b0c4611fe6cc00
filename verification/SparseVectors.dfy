/** Sparse vectors and their cosine similarity. */
module SparseVectors {
  import opened RealArith

  type Vector = map<string, real>

  function At(v: Vector, k: string): real {
    if k in v then v[k] else 0.0
  }

  /** The sum of f over the keys, in whatever order they are visited. */
  ghost function SumOver(keys: set<string>, f: string -> real): real {
    if keys == {} then 0.0
    else
      var k :| k in keys;
      f(k) + SumOver(keys - {k}, f)
  }

  /** The visiting order does not matter: any key may be taken first. */
  lemma {:induction false} SumRemove(keys: set<string>, f: string -> real, x: string)
    requires x in keys
    ensures SumOver(keys, f) == f(x) + SumOver(keys - {x}, f)
    decreases |keys|
  {
    var k :| k in keys && SumOver(keys, f) == f(k) + SumOver(keys - {k}, f);
    if k != x {
      SumRemove(keys - {k}, f, x);
      SumRemove(keys - {x}, f, k);
      assert keys - {k} - {x} == keys - {x} - {k};
    }
  }

  lemma {:induction false} SumEqual(keys: set<string>, f: string -> real, g: string -> real)
    requires forall k | k in keys :: f(k) == g(k)
    ensures SumOver(keys, f) == SumOver(keys, g)
    decreases |keys|
  {
    if keys != {} {
      var k :| k in keys;
      SumEqual(keys - {k}, f, g);
      SumRemove(keys, f, k);
      SumRemove(keys, g, k);
    }
  }

  function Products(a: Vector, b: Vector): string -> real {
    k => At(a, k) * At(b, k)
  }

  lemma ProductsAt(a: Vector, b: Vector, x: string)
    ensures Products(a, b)(x) == At(a, x) * At(b, x)
  {
  }

  /** The sum over keys of the products of the two weights. */
  ghost function Dot(keys: set<string>, a: Vector, b: Vector): real {
    SumOver(keys, Products(a, b))
  }

  lemma DotRemove(keys: set<string>, a: Vector, b: Vector, x: string)
    requires x in keys
    ensures Dot(keys, a, b) == At(a, x) * At(b, x) + Dot(keys - {x}, a, b)
  {
    SumRemove(keys, Products(a, b), x);
    ProductsAt(a, b, x);
  }

  lemma DotSymmetric(keys: set<string>, a: Vector, b: Vector)
    ensures Dot(keys, a, b) == Dot(keys, b, a)
  {
    SumEqual(keys, Products(a, b), Products(b, a));
  }

  lemma {:induction false} SquaresNonNegative(keys: set<string>, a: Vector)
    ensures Dot(keys, a, a) >= 0.0
    decreases |keys|
  {
    if keys != {} {
      var k :| k in keys;
      SquaresNonNegative(keys - {k}, a);
      DotRemove(keys, a, a, k);
      SquareNonNeg(At(a, k));
    }
  }

  lemma {:induction false} SquaresMonotone(few: set<string>, many: set<string>, a: Vector)
    requires few <= many
    ensures Dot(few, a, a) <= Dot(many, a, a)
    decreases |few|
  {
    if few == {} {
      SquaresNonNegative(many, a);
    } else {
      var k :| k in few;
      SquaresMonotone(few - {k}, many - {k}, a);
      DotRemove(few, a, a, k);
      DotRemove(many, a, a, k);
    }
  }

  ghost predicate Positive(v: Vector) {
    forall k | k in v :: v[k] > 0.0
  }

  /** With positive weights a sum over shared keys is positive, unless there are none. */
  lemma {:induction false} DotPositive(keys: set<string>, a: Vector, b: Vector)
    requires Positive(a) && Positive(b) && keys <= a.Keys * b.Keys
    ensures Dot(keys, a, b) >= 0.0
    ensures keys != {} ==> Dot(keys, a, b) > 0.0
    decreases |keys|
  {
    if keys != {} {
      var k :| k in keys;
      DotPositive(keys - {k}, a, b);
      DotRemove(keys, a, b, k);
      MulPos(At(a, k), At(b, k));
    }
  }

  // ----- Cauchy-Schwarz

  /** A sum of products whose square is bounded by the product of the two sums of squares. */
  ghost predicate Bounded(s: real, a: real, b: real) {
    a >= 0.0 && b >= 0.0 && s * s <= a * b
  }

  lemma CrossTerm(s: real, a: real, b: real, p: real, q: real, r: real)
    requires Bounded(s, a, b) && Bounded(p, q, r)
    ensures 2.0 * (s * p) <= a * r + q * b
  {
    var x, y := a * r, q * b;
    MulNonNeg(a, r);
    MulNonNeg(q, b);
    SquareNonNeg(p);
    MulNonNeg(a, b);
    MulMono(s * s, a * b, p * p);
    MulMono(p * p, q * r, a * b);
    assert a * b * (q * r) == x * y;
    var cross := 2.0 * (s * p);
    assert cross * cross == 4.0 * (s * s * (p * p));
    SquareNonNeg(x - y);
    assert (x - y) * (x - y) == (x + y) * (x + y) - 4.0 * (x * y);
    SquareLe(cross, x + y);
  }

  /** Adding two bounded triples gives a bounded triple. */
  lemma BoundedSum(s: real, a: real, b: real, p: real, q: real, r: real)
    requires Bounded(s, a, b) && Bounded(p, q, r)
    ensures Bounded(p + s, q + a, r + b)
  {
    CrossTerm(s, a, b, p, q, r);
    assert (p + s) * (p + s) == p * p + 2.0 * (s * p) + s * s;
    assert (q + a) * (r + b) == q * r + (a * r + q * b) + a * b;
  }

  lemma PointBounded(x: real, y: real)
    ensures Bounded(x * y, x * x, y * y)
  {
    SquareNonNeg(x);
    SquareNonNeg(y);
    assert x * y * (x * y) == x * x * (y * y);
  }

  lemma {:induction false} SumsBounded(keys: set<string>, p: string -> real, q: string -> real, r: string -> real)
    requires forall k | k in keys :: Bounded(p(k), q(k), r(k))
    ensures Bounded(SumOver(keys, p), SumOver(keys, q), SumOver(keys, r))
    decreases |keys|
  {
    if keys != {} {
      var k :| k in keys;
      SumsBounded(keys - {k}, p, q, r);
      SumRemove(keys, p, k);
      SumRemove(keys, q, k);
      SumRemove(keys, r, k);
      BoundedSum(SumOver(keys - {k}, p), SumOver(keys - {k}, q), SumOver(keys - {k}, r), p(k), q(k), r(k));
    }
  }

  lemma {:induction false} CauchySchwarz(keys: set<string>, a: Vector, b: Vector)
    ensures Bounded(Dot(keys, a, b), Dot(keys, a, a), Dot(keys, b, b))
  {
    forall k | k in keys
      ensures Bounded(Products(a, b)(k), Products(a, a)(k), Products(b, b)(k))
    {
      PointBounded(At(a, k), At(b, k));
    }
    SumsBounded(keys, Products(a, b), Products(a, a), Products(b, b));
  }

  // ----- Cosine similarity

  /** All that is needed of a square root. */
  ghost predicate IsSqrt(sqrt: real -> real) {
    forall x: real :: x >= 0.0 ==> sqrt(x) >= 0.0 && sqrt(x) * sqrt(x) == x
  }

  ghost function Magnitude(v: Vector, sqrt: real -> real): real {
    sqrt(Dot(v.Keys, v, v))
  }

  function Ratio(dot: real, ma: real, mb: real): real {
    if ma == 0.0 || mb == 0.0 then 0.0 else Quotient(dot, ma, mb)
  }

  function Quotient(dot: real, ma: real, mb: real): real
    requires ma != 0.0 && mb != 0.0
  {
    dot / (ma * mb)
  }

  ghost function Cosine(a: Vector, b: Vector, sqrt: real -> real): real {
    var ma, mb := Magnitude(a, sqrt), Magnitude(b, sqrt);
    Ratio(Dot(a.Keys * b.Keys, a, b), ma, mb)
  }

  method SumProducts(keys: set<string>, a: Vector, b: Vector) returns (sum: real)
    requires keys <= a.Keys && keys <= b.Keys
    ensures sum == Dot(keys, a, b)
  {
    sum := 0.0;
    var todo := keys;
    while todo != {}
      invariant todo <= keys && sum + Dot(todo, a, b) == Dot(keys, a, b)
      decreases todo
    {
      var k :| k in todo;
      DotRemove(todo, a, b, k);
      sum := sum + a[k] * b[k];
      todo := todo - {k};
    }
  }

  method SparseCosine(a: Vector, b: Vector, sqrt: real -> real) returns (r: real)
    ensures r == Cosine(a, b, sqrt)
  {
    var dot := SumProducts(a.Keys * b.Keys, a, b);
    var squaresA := SumProducts(a.Keys, a, a);
    var squaresB := SumProducts(b.Keys, b, b);
    var magA, magB := sqrt(squaresA), sqrt(squaresB);
    if magA == 0.0 || magB == 0.0 {
      return 0.0;
    }
    return Quotient(dot, magA, magB);
  }

  lemma ZeroSquare(m: real)
    requires m >= 0.0
    ensures m * m == 0.0 <==> m == 0.0
  {
    if m * m == 0.0 {
      SquareLe(m, 0.0);
    }
  }

  lemma MagnitudePositive(v: Vector, sqrt: real -> real)
    requires IsSqrt(sqrt) && Positive(v)
    ensures Magnitude(v, sqrt) >= 0.0 && Magnitude(v, sqrt) * Magnitude(v, sqrt) == Dot(v.Keys, v, v)
    ensures Magnitude(v, sqrt) > 0.0 <==> v.Keys != {}
  {
    DotPositive(v.Keys, v, v);
    ZeroSquare(Magnitude(v, sqrt));
  }

  /** The shared part never exceeds the product of the magnitudes. */
  lemma DotBound(a: Vector, b: Vector, sqrt: real -> real)
    requires IsSqrt(sqrt) && Positive(a) && Positive(b)
    ensures Dot(a.Keys * b.Keys, a, b) <= Magnitude(a, sqrt) * Magnitude(b, sqrt)
  {
    var shared := a.Keys * b.Keys;
    var s, sa, sb := Dot(shared, a, b), Dot(shared, a, a), Dot(shared, b, b);
    var ma, mb := Magnitude(a, sqrt), Magnitude(b, sqrt);
    MagnitudePositive(a, sqrt);
    MagnitudePositive(b, sqrt);
    CauchySchwarz(shared, a, b);
    SquaresMonotone(shared, a.Keys, a);
    SquaresMonotone(shared, b.Keys, b);
    BoundFromSquares(s, sa, sb, ma, mb, Dot(a.Keys, a, a), Dot(b.Keys, b, b));
  }

  lemma BoundFromSquares(s: real, sa: real, sb: real, ma: real, mb: real, ta: real, tb: real)
    requires Bounded(s, sa, sb) && sa <= ta && sb <= tb
    requires ma >= 0.0 && mb >= 0.0 && ma * ma == ta && mb * mb == tb
    ensures s <= ma * mb
  {
    ProductMono(sa, ta, sb, tb);
    SquareOfProduct(ma, mb);
    MulNonNeg(ma, mb);
    SquareLe(s, ma * mb);
  }

  lemma ProductMono(a: real, b: real, c: real, d: real)
    requires 0.0 <= a <= b && 0.0 <= c <= d
    ensures a * c <= b * d
  {
    MulMono(a, b, c);
    MulMono(c, d, b);
  }

  lemma SquareOfProduct(x: real, y: real)
    ensures x * y * (x * y) == x * x * (y * y)
  {
  }

  /** For positive weights the similarity lies in [0, 1], is symmetric, is zero exactly when no key is
      shared, and is one for a non-empty vector against itself. */
  lemma {:induction false} CosineLaws(a: Vector, b: Vector, sqrt: real -> real)
    requires IsSqrt(sqrt) && Positive(a) && Positive(b)
    ensures 0.0 <= Cosine(a, b, sqrt) <= 1.0
    ensures Cosine(a, b, sqrt) == Cosine(b, a, sqrt)
    ensures Cosine(a, b, sqrt) == 0.0 <==> a.Keys !! b.Keys
    ensures a.Keys != {} ==> Cosine(a, a, sqrt) == 1.0
  {
    MagnitudePositive(a, sqrt);
    MagnitudePositive(b, sqrt);
    DotSymmetric(a.Keys * b.Keys, a, b);
    assert a.Keys * b.Keys == b.Keys * a.Keys && a.Keys * a.Keys == a.Keys;
    DisjointKeys(a.Keys, b.Keys);
    DotPositive(a.Keys * b.Keys, a, b);
    DotBound(a, b, sqrt);
    RatioRange(Dot(a.Keys * b.Keys, a, b), Magnitude(a, sqrt), Magnitude(b, sqrt));
    RatioRange(Dot(a.Keys, a, a), Magnitude(a, sqrt), Magnitude(a, sqrt));
  }

  lemma DisjointKeys(s: set<string>, t: set<string>)
    ensures s !! t <==> s * t == {}
  {
    if s * t == {} {
      forall k | k in s ensures k !in t {
        assert k !in s * t;
      }
    }
  }

  lemma RatioRange(dot: real, x: real, y: real)
    requires x >= 0.0 && y >= 0.0 && 0.0 <= dot <= x * y
    ensures Ratio(dot, x, y) == Ratio(dot, y, x) && 0.0 <= Ratio(dot, x, y) <= 1.0
    ensures Ratio(dot, x, y) == 0.0 <==> dot == 0.0 || x == 0.0 || y == 0.0
    ensures x > 0.0 && y > 0.0 && dot == x * y ==> Ratio(dot, x, y) == 1.0
  {
    if x > 0.0 && y > 0.0 {
      MulPos(x, y);
      DivBound(dot, 1.0, x * y);
      DivBound(dot, 0.0, x * y);
    }
  }

  /** The similarity of a vector with the part of it that some keys hold is the ratio of their magnitudes. */
  lemma {:induction false} CosineOfPart(part: Vector, whole: Vector, sqrt: real -> real)
    requires IsSqrt(sqrt) && Positive(whole) && part.Keys != {} && part.Keys <= whole.Keys
    requires forall k | k in part :: part[k] == whole[k]
    ensures Cosine(part, whole, sqrt) * Magnitude(whole, sqrt) == Magnitude(part, sqrt)
  {
    assert Dot(part.Keys * whole.Keys, part, whole) == Dot(part.Keys, part, part) by {
      assert part.Keys * whole.Keys == part.Keys;
      PartProducts(part, whole);
    }
    MagnitudePositive(part, sqrt);
    MagnitudePositive(whole, sqrt);
    PartRatio(Dot(part.Keys, part, part), Magnitude(part, sqrt), Magnitude(whole, sqrt));
  }

  lemma PartProducts(part: Vector, whole: Vector)
    requires part.Keys <= whole.Keys && forall k | k in part :: part[k] == whole[k]
    ensures Dot(part.Keys, part, whole) == Dot(part.Keys, part, part)
  {
    forall k | k in part.Keys ensures Products(part, whole)(k) == Products(part, part)(k) {
      assert At(part, k) == At(whole, k);
    }
    SumEqual(part.Keys, Products(part, whole), Products(part, part));
  }

  lemma PartRatio(dot: real, a: real, b: real)
    requires a > 0.0 && b > 0.0 && dot == a * a
    ensures Quotient(dot, a, b) * b == a
  {
    assert a * b > 0.0;
    var q := dot / (a * b);
    assert q * (a * b) == a * a;
    CancelFactor(q * b, a, a);
  }

  lemma CancelFactor(x: real, y: real, a: real)
    requires a > 0.0 && x * a == y * a
    ensures x == y
  {
  }
}
