/** What an addition to the index leaves behind until the document frequencies are recomputed: a search
    does not recompute them. */
module StaleFrequencies {
  import opened RealArith
  import opened Sequences
  import opened SparseVectors
  import opened Tfidf

  lemma LogOrder(ln: real -> real, x: real, y: real)
    requires IsLog(ln) && 0.0 < x <= y
    ensures ln(x) <= ln(y)
  {
  }

  lemma RatioOrder(a: real, b: real, c: real, d: real)
    requires b > 0.0 && d > 0.0 && a * d <= c * b
    ensures a / b <= c / d
  {
    DivBound(a, c / d, b);
    assert c / d * b == c * b / d;
    DivMono(a * d, c * b, d);
    assert a * d / d == a;
  }

  /** A document with the term lowers the recomputed value, while the addition raises the stored one. */
  lemma BumpExceeds(n: nat, freq: nat, ln: real -> real)
    requires IsLog(ln) && freq <= n
    ensures IdfOf(n, freq, ln) + 1.0 > IdfOf(n + 1, freq + 1, ln)
  {
    var x, y := (n + 2) as real / (freq + 2) as real, (n + 1) as real / (freq + 1) as real;
    assert (n + 2) as real * (freq + 1) as real <= (n + 1) as real * (freq + 2) as real;
    RatioOrder((n + 2) as real, (freq + 2) as real, (n + 1) as real, (freq + 1) as real);
    LogOrder(ln, x, y);
  }

  /** A document without the term raises the recomputed value. */
  lemma MoreDocuments(n: nat, freq: nat, ln: real -> real)
    requires IsLog(ln)
    ensures IdfOf(n, freq, ln) < IdfOf(n + 1, freq, ln)
  {
    var d := (freq + 1) as real;
    var x, y := (n + 1) as real / d, (n + 2) as real / d;
    assert y - x == 1.0 / d;
    assert 0.0 < x < y;
  }

  /** A new term starts at one, which is its value in the first document only. */
  lemma FirstDocument(n: nat, ln: real -> real)
    requires IsLog(ln)
    ensures IdfOf(n + 1, 1, ln) == 1.0 <==> n == 0
  {
    var x := (n + 2) as real / 2.0;
    if n > 0 {
      assert 1.0 < x;
      assert ln(1.0) < ln(x);
    }
  }

  lemma {:induction false} FrequencySnoc(docs: seq<seq<string>>, tokens: seq<string>, t: string)
    ensures DocumentFrequency(docs + [tokens], t) == DocumentFrequency(docs, t) + if t in tokens then 1 else 0
    ensures t !in Terms(docs) ==> DocumentFrequency(docs, t) == 0
  {
    if docs == [] {
      assert docs + [tokens] == [tokens] && [tokens][1..] == [];
    } else {
      assert (docs + [tokens])[0] == docs[0] && (docs + [tokens])[1..] == docs[1..] + [tokens];
      assert docs[0] in docs && forall d | d in docs[1..] :: d in docs;
      FrequencySnoc(docs[1..], tokens, t);
    }
  }

  lemma TermsOfMore(docs: seq<seq<string>>, tokens: seq<string>)
    ensures Terms(docs + [tokens]) == Terms(docs) + set t | t in tokens
  {
    TermsSnoc(docs + [tokens], |docs|);
    assert (docs + [tokens])[..|docs|] == docs && (docs + [tokens])[..|docs| + 1] == docs + [tokens];
  }

  /** What is stored for a term after the addition. */
  lemma StoredAt(docs: seq<seq<string>>, tokens: seq<string>, t: string, ln: real -> real)
    requires t in Terms(docs) || t in tokens
    ensures t in Bumped(Idf(docs, ln), tokens)
    ensures Bumped(Idf(docs, ln), tokens)[t] == At(Idf(docs, ln), t) + if t in tokens then 1.0 else 0.0
  {
  }

  /** What recomputing gives it: an additional document has it or not. */
  lemma RecomputedAt(docs: seq<seq<string>>, tokens: seq<string>, t: string, freq: nat, ln: real -> real)
    requires t in Terms(docs) || t in tokens
    requires freq == DocumentFrequency(docs, t) + if t in tokens then 1 else 0
    ensures t in Idf(docs + [tokens], ln)
    ensures Idf(docs + [tokens], ln)[t] == IdfOf(|docs| + 1, freq, ln)
  {
    var more := docs + [tokens];
    TermsOfMore(docs, tokens);
    FrequencySnoc(docs, tokens, t);
    IdfAt(more, t, freq, ln);
    assert |more| == |docs| + 1;
  }

  lemma IdfAt(docs: seq<seq<string>>, t: string, freq: nat, ln: real -> real)
    requires t in Terms(docs) && freq == DocumentFrequency(docs, t)
    ensures t in Idf(docs, ln) && Idf(docs, ln)[t] == IdfOf(|docs|, freq, ln)
  {
  }

  lemma KnownAndAdded(docs: seq<seq<string>>, tokens: seq<string>, t: string, ln: real -> real)
    requires IsLog(ln) && t in Terms(docs) && t in tokens
    ensures t in Idf(docs + [tokens], ln) && At(Idf(docs, ln), t) + 1.0 > Idf(docs + [tokens], ln)[t]
  {
    var freq := DocumentFrequency(docs, t);
    RecomputedAt(docs, tokens, t, freq + 1, ln);
    BumpExceeds(|docs|, freq, ln);
  }

  lemma KnownOnly(docs: seq<seq<string>>, tokens: seq<string>, t: string, ln: real -> real)
    requires IsLog(ln) && t in Terms(docs) && t !in tokens
    ensures t in Idf(docs + [tokens], ln) && At(Idf(docs, ln), t) < Idf(docs + [tokens], ln)[t]
  {
    var freq := DocumentFrequency(docs, t);
    RecomputedAt(docs, tokens, t, freq, ln);
    MoreDocuments(|docs|, freq, ln);
  }

  lemma NewTerm(docs: seq<seq<string>>, tokens: seq<string>, t: string, ln: real -> real)
    requires IsLog(ln) && t !in Terms(docs) && t in tokens
    ensures t in Idf(docs + [tokens], ln) && Idf(docs + [tokens], ln)[t] >= 1.0
    ensures Idf(docs + [tokens], ln)[t] == 1.0 <==> docs == []
  {
    FrequencySnoc(docs, tokens, t);
    RecomputedAt(docs, tokens, t, 1, ln);
    FirstDocument(|docs|, ln);
    IdfOfAtLeastOne(|docs| + 1, 1, ln);
  }

  lemma BumpedAt(docs: seq<seq<string>>, tokens: seq<string>, t: string, ln: real -> real)
    requires IsLog(ln) && (t in Terms(docs) || t in tokens)
    ensures t in Bumped(Idf(docs, ln), tokens) && t in Idf(docs + [tokens], ln)
    ensures Bumped(Idf(docs, ln), tokens)[t] == Idf(docs + [tokens], ln)[t] <==> t !in Terms(docs) && docs == []
  {
    StoredAt(docs, tokens, t, ln);
    if t !in Terms(docs) {
      NewTerm(docs, tokens, t, ln);
    } else if t in tokens {
      KnownAndAdded(docs, tokens, t, ln);
    } else {
      KnownOnly(docs, tokens, t, ln);
    }
  }

  /** After an addition to an index with up-to-date frequencies they are up to date exactly when no term
      was known before and the document is empty or the first. */
  lemma {:induction false} StaleAfterAdd(docs: seq<seq<string>>, tokens: seq<string>, ln: real -> real)
    requires IsLog(ln)
    ensures Bumped(Idf(docs, ln), tokens) == Idf(docs + [tokens], ln)
       <==> Terms(docs) == {} && (tokens == [] || docs == [])
  {
    var stored, recomputed := Bumped(Idf(docs, ln), tokens), Idf(docs + [tokens], ln);
    TermsOfMore(docs, tokens);
    forall t | t in Terms(docs) || t in tokens
      ensures t in stored && t in recomputed
      ensures stored[t] == recomputed[t] <==> t !in Terms(docs) && docs == []
    {
      BumpedAt(docs, tokens, t, ln);
    }
    if stored == recomputed && tokens != [] {
      assert tokens[0] in tokens;
    }
  }

  /** The terms' shares of a two-term vector: c is the cosine of its first axis. */
  ghost predicate IsShare(c: real, x: real, y: real) {
    c >= 0.0 && exists m :: IsLength(m, x, y) && c * m == x
  }

  ghost predicate IsLength(m: real, x: real, y: real) {
    m > 0.0 && m * m == x * x + y * y
  }

  lemma OneTermDot(a: Vector, b: Vector, x: string)
    requires x in a && x in b
    ensures Dot({x}, a, b) == a[x] * b[x]
  {
    DotRemove({x}, a, b, x);
    assert {x} - {x} == {};
  }

  lemma TwoTermDot(e: Vector, x: string, y: string)
    requires x in e && y in e && x != y
    ensures Dot({x, y}, e, e) == e[x] * e[x] + e[y] * e[y]
  {
    DotRemove({x, y}, e, e, x);
    assert {x, y} - {x} == {y};
    OneTermDot(e, e, y);
  }

  lemma EqualSquares(x: real, y: real)
    requires x >= 0.0 && y >= 0.0 && x * x == y * y
    ensures x == y
  {
    SquareLe(x, y);
    SquareLe(y, x);
  }

  lemma QueryLength(q: Vector, x: string, sqrt: real -> real)
    requires IsSqrt(sqrt) && Positive(q) && q.Keys == {x}
    ensures Magnitude(q, sqrt) == q[x]
  {
    MagnitudePositive(q, sqrt);
    OneTermDot(q, q, x);
    EqualSquares(Magnitude(q, sqrt), q[x]);
  }

  lemma EntryLength(e: Vector, x: string, y: string, sqrt: real -> real)
    requires IsSqrt(sqrt) && Positive(e) && x != y && e.Keys == {x, y}
    ensures IsLength(Magnitude(e, sqrt), e[x], e[y])
  {
    MagnitudePositive(e, sqrt);
    TwoTermDot(e, x, y);
  }

  lemma ShareIntro(dot: real, q: real, m: real, x: real, y: real)
    requires q > 0.0 && x > 0.0 && IsLength(m, x, y) && dot == q * x
    ensures IsShare(Ratio(dot, q, m), x, y)
  {
    var c := dot / (q * m);
    MulPos(q, m);
    MulPos(q, x);
    assert c * (q * m) == q * x;
    CancelLeft(q, c * m, x);
    DivBound(dot, 0.0, q * m);
    assert Ratio(dot, q, m) == c && c * m == x;
  }

  lemma CancelLeft(q: real, x: real, y: real)
    requires q > 0.0 && q * x == q * y
    ensures x == y
  {
    assert q * x / q == x && q * y / q == y;
  }

  /** The cosine of a one-term query with a two-term entry is the term's share of the entry. */
  lemma OneTermCosine(q: Vector, e: Vector, x: string, y: string, sqrt: real -> real)
    requires IsSqrt(sqrt) && Positive(q) && Positive(e) && x != y && q.Keys == {x} && e.Keys == {x, y}
    ensures IsShare(Cosine(q, e, sqrt), e[x], e[y])
  {
    QueryLength(q, x, sqrt);
    EntryLength(e, x, y, sqrt);
    assert q.Keys * e.Keys == {x};
    OneTermDot(q, e, x);
    ShareIntro(Dot(q.Keys * e.Keys, q, e), q[x], Magnitude(e, sqrt), e[x], e[y]);
  }

  lemma ShareSquare(c: real, x: real, y: real)
    requires x > 0.0 && y > 0.0 && IsShare(c, x, y)
    ensures x > y ==> 2.0 * (c * c) > 1.0
    ensures x <= y ==> 2.0 * (c * c) <= 1.0
  {
    var m :| IsLength(m, x, y) && c * m == x;
    assert c * c * (m * m) == x * x;
    ShareOf(c * c, x * x, y * y, m * m);
    SquareOrder(x, y);
    SquareOrder(y, x);
    MulPos(m, m);
  }

  lemma SquareOrder(x: real, y: real)
    requires x > 0.0 && y > 0.0
    ensures x > y ==> x * x > y * y
    ensures x <= y ==> x * x <= y * y
  {
    if x > y {
      MulPos(x - y, x + y);
      assert (x - y) * (x + y) == x * x - y * y;
    } else {
      MulMono(x, y, x);
      MulMono(x, y, y);
    }
  }

  lemma ShareOf(s: real, a: real, b: real, total: real)
    requires total == a + b && s * total == a && total > 0.0
    ensures a > b ==> 2.0 * s > 1.0
    ensures a <= b ==> 2.0 * s <= 1.0
  {
    if 2.0 * s <= 1.0 {
      MulMono(2.0 * s, 1.0, total);
    } else {
      MulPos(2.0 * s - 1.0, total);
    }
  }

  /** A term that outweighs the other has a larger share than one that does not. */
  lemma LargerShare(c: real, x: real, y: real, c': real, x': real, y': real)
    requires IsShare(c, x, y) && IsShare(c', x', y') && x > y > 0.0 && 0.0 < x' <= y'
    ensures c > c'
  {
    ShareSquare(c, x, y);
    ShareSquare(c', x', y');
    if c <= c' {
      ProductMono(c, c', c, c');
    }
  }

  lemma LargerCosine(q: Vector, e: Vector, q': Vector, e': Vector, sqrt: real -> real)
    requires IsSqrt(sqrt) && Positive(q) && Positive(e) && Positive(q') && Positive(e')
    requires q.Keys == q'.Keys == {"x"} && e.Keys == e'.Keys == {"x", "y"}
    requires e["x"] > e["y"] && e'["x"] <= e'["y"]
    ensures Cosine(q, e, sqrt) > Cosine(q', e', sqrt)
  {
    OneTermCosine(q, e, "x", "y", sqrt);
    OneTermCosine(q', e', "x", "y", sqrt);
    LargerShare(Cosine(q, e, sqrt), e["x"], e["y"], Cosine(q', e', sqrt), e'["x"], e'["y"]);
  }

  lemma WeightedOrder(e: Vector, idf: Vector, s: string, t: string)
    requires {s, t} <= e.Keys && {s, t} <= idf.Keys && e[s] == e[t] > 0.0
    ensures Weighted(e, idf)[s] > Weighted(e, idf)[t] <==> idf[s] > idf[t]
  {
    if idf[s] > idf[t] {
      MulPos(e[s], idf[s] - idf[t]);
    } else {
      MulNonNeg(e[s], idf[t] - idf[s]);
    }
  }

  lemma StaleScores(q: Vector, e: Vector, stored: Vector, recomputed: Vector, sqrt: real -> real)
    requires IsSqrt(sqrt) && Positive(q) && Positive(e) && AtLeastOne(stored) && AtLeastOne(recomputed)
    requires q.Keys == {"x"} && e.Keys == {"x", "y"} && e["x"] == e["y"]
    requires {"x", "y"} <= stored.Keys && {"x", "y"} <= recomputed.Keys
    requires stored["x"] > stored["y"] && recomputed["x"] <= recomputed["y"]
    ensures Cosine(Weighted(q, stored), Weighted(e, stored), sqrt)
         > Cosine(Weighted(q, recomputed), Weighted(e, recomputed), sqrt)
  {
    WeightedPositive(q, stored);
    WeightedPositive(e, stored);
    WeightedPositive(q, recomputed);
    WeightedPositive(e, recomputed);
    WeightedOrder(e, stored, "x", "y");
    WeightedOrder(e, recomputed, "x", "y");
    LargerCosine(Weighted(q, stored), Weighted(e, stored), Weighted(q, recomputed), Weighted(e, recomputed), sqrt);
  }

  lemma TwoTokens(ln: real -> real)
    requires IsLog(ln)
    ensures var q, e := ComputeTf(["x"], ln), ComputeTf(["x", "y"], ln);
            && q.Keys == {"x"} && e.Keys == {"x", "y"} && e["x"] == e["y"] > 0.0
  {
    var q, e := ["x"], ["x", "y"];
    TfPositive(e, ln);
    assert forall t :: t in q <==> t == "x";
    assert e[0] == "x" && e[1] == "y" && forall t :: t in e <==> t == "x" || t == "y";
  }

  lemma CommonTerm(n: nat, ln: real -> real)
    requires IsLog(ln)
    ensures IdfOf(n, n, ln) == 1.0
  {
    assert (n + 1) as real / (n + 1) as real == 1.0;
  }

  /** A term of every document has the value one. */
  lemma TermOfAll(docs: seq<seq<string>>, t: string, ln: real -> real)
    requires IsLog(ln) && t in Terms(docs) && DocumentFrequency(docs, t) == |docs|
    ensures t in Idf(docs, ln) && Idf(docs, ln)[t] == 1.0
  {
    CommonTerm(|docs|, ln);
  }

  /** What an index over one document stores after a second, and what it would recompute. */
  lemma TwoTokenIdf(docs: seq<seq<string>>, xy: seq<string>, ln: real -> real)
    requires IsLog(ln) && docs == [["x"]] && xy == ["x", "y"]
    ensures var stored, recomputed := Bumped(Idf(docs, ln), xy), Idf(docs + [xy], ln);
            && {"x", "y"} <= stored.Keys && {"x", "y"} <= recomputed.Keys
            && stored["x"] > stored["y"] && recomputed["x"] < recomputed["y"]
  {
    assert docs[0][0] == "x" && docs[0] in docs && xy[0] == "x" && xy[1] == "y" && docs[1..] == [];
    assert "y" !in docs[0] && "x" in docs[0] && "x" in Terms(docs) && "y" !in Terms(docs);
    TermOfAll(docs, "x", ln);
    RecomputedAt(docs, xy, "x", 2, ln);
    CommonTerm(2, ln);
    NewTerm(docs, xy, "y", ln);
    StoredAt(docs, xy, "x", ln);
    StoredAt(docs, xy, "y", ln);
  }

  /** A search after the addition scores the entry with the stale weights: higher than recomputed ones would. */
  lemma {:induction false} StaleSearch(docs: seq<seq<string>>, entry: IndexEntry, ln: real -> real, sqrt: real -> real)
    requires IsLog(ln) && IsSqrt(sqrt) && docs == [["x"]]
    requires entry.tokens == ["x", "y"] && entry.tf == ComputeTf(entry.tokens, ln)
    ensures ScoreOf(entry, ComputeTf(["x"], ln), Bumped(Idf(docs, ln), entry.tokens), sqrt, None)
          > ScoreOf(entry, ComputeTf(["x"], ln), Idf(docs + [entry.tokens], ln), sqrt, None)
  {
    TwoTokens(ln);
    TfPositive(["x"], ln);
    TfPositive(entry.tokens, ln);
    TwoTokenIdf(docs, entry.tokens, ln);
    IdfAtLeastOne(docs, ln);
    BumpedAtLeastOne(Idf(docs, ln), set t | t in entry.tokens);
    IdfAtLeastOne(docs + [entry.tokens], ln);
    StaleScores(ComputeTf(["x"], ln), entry.tf, Bumped(Idf(docs, ln), entry.tokens), Idf(docs + [entry.tokens], ln),
        sqrt);
  }
}
