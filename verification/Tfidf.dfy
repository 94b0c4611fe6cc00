/** The TF-IDF index: term weights, lazily recomputed document frequencies, ranked search. */
module Tfidf {
  import opened RealArith
  import opened Rounding
  import opened Sequences
  import opened Sorting
  import opened SparseVectors

  /** All that is needed of the natural logarithm. */
  ghost predicate IsLog(ln: real -> real) {
    && ln(1.0) == 0.0
    && forall x: real, y: real :: 0.0 < x < y ==> ln(x) < ln(y)
  }

  function Occurrences(tokens: seq<string>, term: string): nat {
    multiset(tokens)[term]
  }

  /** Log-normalized term frequencies. */
  function ComputeTf(tokens: seq<string>, ln: real -> real): Vector {
    var total := if |tokens| == 0 then 1 else |tokens|;
    map t | t in tokens :: ln(1.0 + Occurrences(tokens, t) as real / total as real)
  }

  /** The number of documents that contain the term. */
  function DocumentFrequency(docs: seq<seq<string>>, term: string): (n: nat)
    ensures n <= |docs|
  {
    if docs == [] then 0 else (if term in docs[0] then 1 else 0) + DocumentFrequency(docs[1..], term)
  }

  function Terms(docs: seq<seq<string>>): set<string> {
    set d, t | d in docs && t in d :: t
  }

  /** The inverse frequency of a term that freq of n documents contain. */
  function IdfOf(n: nat, freq: nat, ln: real -> real): real {
    ln((n + 1) as real / (freq + 1) as real) + 1.0
  }

  function Idf(docs: seq<seq<string>>, ln: real -> real): Vector {
    map t | t in Terms(docs) :: IdfOf(|docs|, DocumentFrequency(docs, t), ln)
  }

  function Frequency(df: map<string, nat>, t: string): nat {
    if t in df then df[t] else 0
  }

  method ComputeIdf(docs: seq<seq<string>>, ln: real -> real) returns (idf: Vector)
    ensures idf == Idf(docs, ln)
  {
    var df := CountAll(docs);
    idf := map t | t in df :: IdfOf(|docs|, df[t], ln);
  }

  /** The document frequency of every term. */
  method CountAll(docs: seq<seq<string>>) returns (df: map<string, nat>)
    ensures df.Keys == Terms(docs) && forall t | t in df :: df[t] == DocumentFrequency(docs, t)
  {
    df := map[];
    assert docs[0..] == docs;
    for i := 0 to |docs|
      invariant df.Keys == Terms(docs[..i])
      invariant forall t :: Frequency(df, t) + DocumentFrequency(docs[i..], t) == DocumentFrequency(docs, t)
    {
      assert docs[i..][0] == docs[i] && docs[i..][1..] == docs[i + 1..];
      TermsSnoc(docs, i);
      df := CountDocument(df, docs[i]);
    }
    assert docs[..|docs|] == docs;
    forall t | t in df ensures df[t] == DocumentFrequency(docs, t) {
      assert Frequency(df, t) == df[t];
    }
  }

  lemma TermsSnoc(docs: seq<seq<string>>, i: nat)
    requires i < |docs|
    ensures Terms(docs[..i + 1]) == Terms(docs[..i]) + set t | t in docs[i]
  {
    assert docs[..i + 1] == docs[..i] + [docs[i]];
  }

  /** Counts one more document for each of its terms. */
  method CountDocument(df: map<string, nat>, doc: seq<string>) returns (df': map<string, nat>)
    ensures df'.Keys == df.Keys + set t | t in doc
    ensures forall t :: Frequency(df', t) == Frequency(df, t) + if t in doc then 1 else 0
  {
    df' := df;
    var todo := set t | t in doc;
    ghost var all := todo;
    while todo != {}
      invariant todo <= all && df'.Keys == df.Keys + (all - todo)
      invariant forall t :: Frequency(df', t) == Frequency(df, t) + if t in all - todo then 1 else 0
      decreases todo
    {
      var t :| t in todo;
      df' := df'[t := Frequency(df', t) + 1];
      todo := todo - {t};
    }
  }

  /** Every term frequency is positive. */
  lemma {:induction false} TfPositive(tokens: seq<string>, ln: real -> real)
    requires IsLog(ln)
    ensures Positive(ComputeTf(tokens, ln))
  {
    var tf := ComputeTf(tokens, ln);
    forall t | t in tf ensures tf[t] > 0.0 {
      assert Occurrences(tokens, t) > 0;
      var x := 1.0 + Occurrences(tokens, t) as real / |tokens| as real;
      assert x > 1.0;
      assert ln(1.0) < ln(x);
    }
  }

  /** Every inverse document frequency is at least one. */
  ghost predicate AtLeastOne(idf: Vector) {
    forall t | t in idf :: idf[t] >= 1.0
  }

  lemma {:induction false} IdfAtLeastOne(docs: seq<seq<string>>, ln: real -> real)
    requires IsLog(ln)
    ensures AtLeastOne(Idf(docs, ln))
  {
    forall t | t in Idf(docs, ln) ensures Idf(docs, ln)[t] >= 1.0 {
      IdfOfAtLeastOne(|docs|, DocumentFrequency(docs, t), ln);
    }
  }

  lemma IdfOfAtLeastOne(n: nat, freq: nat, ln: real -> real)
    requires IsLog(ln) && freq <= n
    ensures IdfOf(n, freq, ln) >= 1.0
  {
    var ratio := (n + 1) as real / (freq + 1) as real;
    DivBound((n + 1) as real, 1.0, (freq + 1) as real);
    if ratio > 1.0 {
      assert ln(1.0) < ln(ratio);
    }
  }

  /** The values after each of the terms grew by one. */
  function BumpedBy(idf: Vector, terms: set<string>): Vector {
    map t | t in idf.Keys + terms :: At(idf, t) + if t in terms then 1.0 else 0.0
  }

  lemma BumpOne(idf: Vector, terms: set<string>, t: string)
    requires t !in terms
    ensures var before := BumpedBy(idf, terms);
            BumpedBy(idf, terms + {t}) == before[t := At(before, t) + 1.0]
  {
  }

  lemma BumpedAtLeastOne(idf: Vector, terms: set<string>)
    requires AtLeastOne(idf)
    ensures AtLeastOne(BumpedBy(idf, terms))
  {
  }

  function Bumped(idf: Vector, tokens: seq<string>): Vector {
    BumpedBy(idf, set t | t in tokens)
  }

  datatype IndexEntry = IndexEntry(docId: string, text: string, source: string, tokens: seq<string>, tf: Vector,
                                   metadata: map<string, string>)

  /** Term frequencies weighted by the document frequencies known so far; unknown terms weigh one. */
  function Weighted(tf: Vector, idf: Vector): Vector {
    map t | t in tf :: tf[t] * (if t in idf then idf[t] else 1.0)
  }

  lemma WeightedPositive(tf: Vector, idf: Vector)
    requires Positive(tf) && AtLeastOne(idf)
    ensures Positive(Weighted(tf, idf)) && Weighted(tf, idf).Keys == tf.Keys
  {
    forall t | t in tf ensures Weighted(tf, idf)[t] > 0.0 {
      MulPos(tf[t], if t in idf then idf[t] else 1.0);
    }
  }

  type Scorer = (IndexEntry, Vector, real) -> real

  /** The plain similarity, or what the scorer makes of it. */
  function FinalScore(scorer: Option<Scorer>, entry: IndexEntry, queryTf: Vector, base: real): real {
    if scorer.Some? then scorer.value(entry, queryTf, base) else base
  }

  ghost function ScoreOf(entry: IndexEntry, queryTf: Vector, idf: Vector, sqrt: real -> real,
          scorer: Option<Scorer>): real {
    FinalScore(scorer, entry, queryTf, Cosine(Weighted(queryTf, idf), Weighted(entry.tf, idf), sqrt))
  }

  /** The positively scored entries in order, keyed for a descending sort by rounded score. */
  ghost function Ranking(entries: seq<IndexEntry>, score: IndexEntry -> real): seq<Keyed<IndexEntry>> {
    if entries == [] then []
    else if score(entries[0]) > 0.0 then [Descending(entries[0], score(entries[0]))] + Ranking(entries[1..], score)
    else Ranking(entries[1..], score)
  }

  function Descending(e: IndexEntry, score: real): Keyed<IndexEntry> {
    Keyed(-Round6(score), 0.0, e)
  }

  ghost function Scoring(queryTf: Vector, idf: Vector, sqrt: real -> real, scorer: Option<Scorer>): IndexEntry -> real {
    e => ScoreOf(e, queryTf, idf, sqrt, scorer)
  }

  function Hits(ranked: seq<Keyed<IndexEntry>>): (hits: seq<(IndexEntry, real)>)
    ensures |hits| == |ranked|
    ensures forall i | 0 <= i < |hits| :: hits[i] == (ranked[i].item, -ranked[i].major)
  {
    seq(|ranked|, i requires 0 <= i < |ranked| => (ranked[i].item, -ranked[i].major))
  }

  ghost function SearchResult(entries: seq<IndexEntry>, queryTokens: seq<string>, topK: int, idf: Vector,
                              ln: real -> real, sqrt: real -> real, scorer: Option<Scorer>): seq<(IndexEntry, real)>
  {
    Hits(Take(Sort(Ranking(entries, Scoring(ComputeTf(queryTokens, ln), idf, sqrt, scorer))), topK))
  }

  function TokensOf(entries: seq<IndexEntry>): seq<seq<string>> {
    seq(|entries|, i requires 0 <= i < |entries| => entries[i].tokens)
  }

  class TfidfIndex {
    const ln: real -> real
    const sqrt: real -> real
    var entries: seq<IndexEntry>
    var idf: Vector

    constructor (log: real -> real, root: real -> real)
      requires IsLog(log) && IsSqrt(root)
      ensures Valid() && ln == log && sqrt == root && entries == [] && idf == map[]
    {
      ln := log;
      sqrt := root;
      entries := [];
      idf := map[];
    }

    ghost predicate Valid()
      reads this
    {
      && IsLog(ln) && IsSqrt(sqrt) && AtLeastOne(idf)
      && forall i | 0 <= i < |entries| :: entries[i].tf == ComputeTf(entries[i].tokens, ln)
    }

    /** Appends a document; each of its terms' frequency entry grows by one until it is recomputed. */
    method Add(docId: string, text: string, tokens: seq<string>, source: string, metadata: map<string, string>)
      returns (entry: IndexEntry)
      requires Valid()
      modifies this
      ensures Valid()
      ensures entry == IndexEntry(docId, text, source, tokens, ComputeTf(tokens, ln), metadata)
      ensures entries == old(entries) + [entry]
      ensures idf == Bumped(old(idf), tokens)
    {
      entry := IndexEntry(docId, text, source, tokens, ComputeTf(tokens, ln), metadata);
      entries := entries + [entry];
      CountTerms(tokens);
      BumpedAtLeastOne(old(idf), set t | t in tokens);
    }

    /** One more for each distinct term. */
    method CountTerms(tokens: seq<string>)
      modifies this`idf
      ensures idf == Bumped(old(idf), tokens)
    {
      var todo := set t | t in tokens;
      ghost var all := todo;
      while todo != {}
        invariant todo <= all && idf == BumpedBy(old(idf), all - todo)
        decreases todo
      {
        var t :| t in todo;
        BumpOne(old(idf), all - todo, t);
        assert all - (todo - {t}) == all - todo + {t};
        idf := idf[t := (if t in idf then idf[t] else 0.0) + 1.0];
        todo := todo - {t};
      }
      assert all - {} == all;
    }

    method RecomputeIdf()
      requires Valid()
      modifies this`idf
      ensures Valid() && idf == Idf(TokensOf(entries), ln)
    {
      idf := ComputeIdf(TokensOf(entries), ln);
      IdfAtLeastOne(TokensOf(entries), ln);
    }

    method Search(queryTokens: seq<string>, topK: int, scorer: Option<Scorer>) returns (hits: seq<(IndexEntry, real)>)
      requires Valid()
      ensures hits == SearchResult(entries, queryTokens, topK, idf, ln, sqrt, scorer)
    {
      if entries == [] {
        return [];
      }
      var queryTf := ComputeTf(queryTokens, ln);
      var scored := ScoreAll(queryTf, Weighted(queryTf, idf), scorer);
      hits := Hits(Take(Sort(scored), topK));
    }

    method ScoreAll(queryTf: Vector, queryVec: Vector, scorer: Option<Scorer>) returns (scored: seq<Keyed<IndexEntry>>)
      requires queryVec == Weighted(queryTf, idf)
      ensures scored == Ranking(entries, Scoring(queryTf, idf, sqrt, scorer))
    {
      scored := [];
      ghost var score := Scoring(queryTf, idf, sqrt, scorer);
      assert entries[0..] == entries;
      for i := 0 to |entries|
        invariant scored + Ranking(entries[i..], score) == Ranking(entries, score)
      {
        RankingStep(entries, i, score);
        var finalScore := ScoreEntry(entries[i], queryTf, queryVec, scorer);
        ghost var before := scored;
        if finalScore > 0.0 {
          scored := scored + [Descending(entries[i], finalScore)];
          assert scored + Ranking(entries[i + 1..], score)
              == before + ([Descending(entries[i], finalScore)] + Ranking(entries[i + 1..], score));
        }
      }
      assert scored + [] == scored;
    }

    method ScoreEntry(entry: IndexEntry, queryTf: Vector, queryVec: Vector,
            scorer: Option<Scorer>) returns (score: real)
      requires queryVec == Weighted(queryTf, idf)
      ensures score == Scoring(queryTf, idf, sqrt, scorer)(entry)
    {
      var entryVec := Weighted(entry.tf, idf);
      var baseScore := SparseCosine(queryVec, entryVec, sqrt);
      score := FinalScore(scorer, entry, queryTf, baseScore);
    }

    method Clear()
      requires Valid()
      modifies this
      ensures Valid() && entries == [] && idf == map[]
    {
      entries := [];
      idf := map[];
    }
  }

  // ----- Ranking

  lemma RankingStep(entries: seq<IndexEntry>, i: nat, score: IndexEntry -> real)
    requires i < |entries|
    ensures Ranking(entries[i..], score)
         == if score(entries[i]) > 0.0 then [Descending(entries[i], score(entries[i]))]
             + Ranking(entries[i + 1..], score)
            else Ranking(entries[i + 1..], score)
  {
    assert entries[i..][0] == entries[i] && entries[i..][1..] == entries[i + 1..];
  }

  /** When every score is positive the ranking lists every entry, in order. */
  lemma {:induction false} AllRanked(entries: seq<IndexEntry>, score: IndexEntry -> real)
    requires forall e | e in entries :: score(e) > 0.0
    ensures var s := Ranking(entries, score);
            && |s| == |entries|
            && forall i | 0 <= i < |s| :: s[i] == Descending(entries[i], score(entries[i]))
  {
    if entries != [] {
      AllRanked(entries[1..], score);
    }
  }

  /** What a search returns and what it drops, when all scores are positive: together they are the whole
      index, each once; exactly min(k, size) are returned, in descending order of rounded score; and no
      dropped entry outranks a returned one. */
  lemma {:induction false} RankedTopK(entries: seq<IndexEntry>, k: nat, score: IndexEntry -> real)
    requires forall e | e in entries :: score(e) > 0.0
    ensures var ranked := Sort(Ranking(entries, score));
            var kept, dropped := Take(ranked, k), Drop(ranked, k);
            && |Hits(kept)| == (if k <= |entries| then k else |entries|)
            && |Ranking(entries, score)| == |entries|
            && multiset(kept + dropped) == multiset(Ranking(entries, score))
            && (forall i, j :: 0 <= i < j < |kept| ==> Hits(kept)[i].1 >= Hits(kept)[j].1)
            && (forall i, j :: 0 <= i < |kept| && 0 <= j < |dropped| ==> Hits(kept)[i].1 >= Hits(dropped)[j].1)
  {
    AllRanked(entries, score);
    SortCorrect(Ranking(entries, score));
    RankedSplit(Sort(Ranking(entries, score)), k);
  }

  lemma RankedSplit(ranked: seq<Keyed<IndexEntry>>, k: nat)
    requires Sorted(ranked)
    ensures forall i, j :: 0 <= i < j < |Take(ranked, k)| ==> Hits(Take(ranked, k))[i].1 >= Hits(Take(ranked, k))[j].1
    ensures forall i, j :: 0 <= i < |Take(ranked, k)| && 0 <= j < |Drop(ranked, k)| ==>
              Hits(Take(ranked, k))[i].1 >= Hits(Drop(ranked, k))[j].1
  {
    var kept, dropped := Take(ranked, k), Drop(ranked, k);
    forall i, j | 0 <= i < |kept| && 0 <= j < |dropped|
      ensures Hits(kept)[i].1 >= Hits(dropped)[j].1
    {
      assert ranked[i] == kept[i] && ranked[|kept| + j] == dropped[j];
      assert ranked[i].AtMost(ranked[|kept| + j]);
    }
    forall i, j | 0 <= i < j < |kept|
      ensures Hits(kept)[i].1 >= Hits(kept)[j].1
    {
      assert ranked[i].AtMost(ranked[j]);
    }
  }

  lemma WeightedTf(tokens: seq<string>, idf: Vector, ln: real -> real)
    requires IsLog(ln) && AtLeastOne(idf)
    ensures var v := Weighted(ComputeTf(tokens, ln), idf); Positive(v) && v.Keys == set t | t in tokens
  {
    TfPositive(tokens, ln);
    WeightedPositive(ComputeTf(tokens, ln), idf);
  }

  /** In every reachable state of an index the base similarity of a query with an entry lies in [0, 1],
      is symmetric, is zero exactly when they share no term, and is one for an entry's own tokens. */
  lemma {:induction false} SimilarityLaws(entryTokens: seq<string>, queryTokens: seq<string>, idf: Vector,
          ln: real -> real, sqrt: real -> real)
    requires IsLog(ln) && IsSqrt(sqrt) && AtLeastOne(idf)
    ensures var e, q := Weighted(ComputeTf(entryTokens, ln), idf), Weighted(ComputeTf(queryTokens, ln), idf);
            && 0.0 <= Cosine(q, e, sqrt) <= 1.0
            && Cosine(q, e, sqrt) == Cosine(e, q, sqrt)
            && (Cosine(q, e, sqrt) == 0.0 <==> (set t | t in queryTokens) !! (set t | t in entryTokens))
            && (entryTokens != [] ==> Cosine(e, e, sqrt) == 1.0)
  {
    WeightedTf(entryTokens, idf, ln);
    WeightedTf(queryTokens, idf, ln);
    var e, q := Weighted(ComputeTf(entryTokens, ln), idf), Weighted(ComputeTf(queryTokens, ln), idf);
    CosineLaws(q, e, sqrt);
    CosineLaws(e, q, sqrt);
    if entryTokens != [] {
      assert entryTokens[0] in e.Keys;
    }
  }

  /** Every hit is one of the entries with its rounded score. */
  lemma {:induction false} RankedScores(entries: seq<IndexEntry>, score: IndexEntry -> real, k: nat, i: nat)
    requires i < |Take(Sort(Ranking(entries, score)), k)|
    ensures var hit := Hits(Take(Sort(Ranking(entries, score)), k))[i];
            hit.0 in entries && score(hit.0) > 0.0 && hit.1 == Round6(score(hit.0))
  {
    var ranking := Ranking(entries, score);
    SortCorrect(ranking);
    var keyed := Sort(ranking)[i];
    assert keyed == Take(Sort(ranking), k)[i];
    assert keyed in multiset(ranking);
    var j :| 0 <= j < |ranking| && ranking[j] == keyed;
    RankingMember(entries, score, j);
  }

  lemma {:induction false} RankingMember(entries: seq<IndexEntry>, score: IndexEntry -> real, j: nat)
    requires j < |Ranking(entries, score)|
    ensures var e := Ranking(entries, score)[j].item;
            e in entries && score(e) > 0.0 && Ranking(entries, score)[j] == Descending(e, score(e))
  {
    if score(entries[0]) > 0.0 {
      if j > 0 {
        RankingMember(entries[1..], score, j - 1);
      }
    } else {
      RankingMember(entries[1..], score, j);
    }
  }

  // ----- What the weights measure

  /** Repeating a document changes none of its term frequencies; a term makes up more of a document exactly
      when its frequency is higher; and a document of one term gives it ln 2. */
  lemma {:induction false} TfLaws(tokens: seq<string>, ln: real -> real, t: string, u: string)
    requires IsLog(ln) && t in tokens && u in tokens
    ensures ComputeTf(tokens + tokens, ln) == ComputeTf(tokens, ln)
    ensures ComputeTf(tokens, ln)[t] < ComputeTf(tokens, ln)[u] <==> multiset(tokens)[t] < multiset(tokens)[u]
    ensures (forall x | x in tokens :: x == t) ==> ComputeTf(tokens, ln)[t] == ln(2.0)
  {
    RepeatedTf(tokens, ln);
    TfOrder(tokens, ln, t, u);
    if forall x | x in tokens :: x == t {
      TfOfOnly(tokens, ln, t);
    }
  }

  lemma TfOfOnly(tokens: seq<string>, ln: real -> real, t: string)
    requires t in tokens && forall x | x in tokens :: x == t
    ensures ComputeTf(tokens, ln)[t] == ln(2.0)
  {
    OnlyTerm(tokens, t);
    WholeShare(|tokens| as real);
  }

  lemma WholeShare(n: real)
    requires n > 0.0
    ensures 1.0 + n / n == 2.0
  {
  }

  lemma TfOrder(tokens: seq<string>, ln: real -> real, t: string, u: string)
    requires IsLog(ln) && t in tokens && u in tokens
    ensures ComputeTf(tokens, ln)[t] < ComputeTf(tokens, ln)[u] <==> multiset(tokens)[t] < multiset(tokens)[u]
  {
    var n, i, j := |tokens| as real, Occurrences(tokens, t) as real, Occurrences(tokens, u) as real;
    assert i > 0.0 && j > 0.0;
    SharesOrdered(i, j, n);
    LogOrder(ln, 1.0 + i / n, 1.0 + j / n);
  }

  lemma SharesOrdered(i: real, j: real, n: real)
    requires n > 0.0 && i > 0.0 && j > 0.0
    ensures i / n > 0.0 && j / n > 0.0 && (i / n < j / n <==> i < j)
  {
    DivBound(i, 0.0, n);
    DivBound(j, 0.0, n);
    var b := j / n;
    assert b * n == j;
    DivBound(i, b, n);
    DivBound(j, i / n, n);
  }

  lemma LogOrder(ln: real -> real, x: real, y: real)
    requires IsLog(ln) && x > 0.0 && y > 0.0
    ensures ln(x) < ln(y) <==> x < y
  {
    if y < x {
      assert ln(y) < ln(x);
    }
  }

  lemma {:induction false} OnlyTerm(tokens: seq<string>, t: string)
    requires forall x | x in tokens :: x == t
    ensures multiset(tokens)[t] == |tokens|
  {
    if tokens != [] {
      var first, rest := tokens[0], tokens[1..];
      assert tokens == [first] + rest;
      assert forall x | x in rest :: x in tokens;
      OnlyTerm(rest, t);
      assert first in tokens && multiset([first])[t] == 1;
    }
  }

  lemma RepeatedTf(tokens: seq<string>, ln: real -> real)
    ensures ComputeTf(tokens + tokens, ln) == ComputeTf(tokens, ln)
  {
    var once, twice := ComputeTf(tokens, ln), ComputeTf(tokens + tokens, ln);
    assert once.Keys == twice.Keys;
    forall t | t in once ensures once[t] == twice[t] {
      RepeatedShare(tokens, t);
    }
  }

  lemma RepeatedShare(tokens: seq<string>, t: string)
    requires t in tokens
    ensures Occurrences(tokens + tokens, t) as real / |tokens + tokens| as real
         == Occurrences(tokens, t) as real / |tokens| as real
  {
    var k, n := Occurrences(tokens, t), |tokens|;
    assert Occurrences(tokens + tokens, t) == 2 * k && |tokens + tokens| == 2 * n;
    assert (2 * k) as real == 2.0 * k as real && (2 * n) as real == 2.0 * n as real;
    DoubledShare(k as real, n as real, (2 * k) as real, (2 * n) as real);
  }

  lemma DoubledShare(k: real, n: real, k': real, n': real)
    requires n > 0.0 && k' == 2.0 * k && n' == 2.0 * n
    ensures k' / n' == k / n
  {
    var q := k / n;
    assert q * n == k;
    assert q * n' == k';
  }

  /** A term of every document weighs exactly one, a rarer term weighs more than a more frequent one, and a
      term whose smoothed share of the documents is one in k weighs one plus ln k. */
  lemma {:induction false} IdfLaws(docs: seq<seq<string>>, ln: real -> real, t: string, u: string, k: nat)
    requires IsLog(ln) && t in Terms(docs) && u in Terms(docs) && k > 0
    ensures Idf(docs, ln)[t] == 1.0 <==> forall d | d in docs :: t in d
    ensures Idf(docs, ln)[t] > Idf(docs, ln)[u] <==> DocumentFrequency(docs, t) < DocumentFrequency(docs, u)
    ensures |docs| + 1 == k * (DocumentFrequency(docs, t) + 1) ==> Idf(docs, ln)[t] == 1.0 + ln(k as real)
  {
    var f := DocumentFrequency(docs, t);
    FrequencyOfAll(docs, t);
    IdfOfAll(|docs|, f, ln);
    IdfOrder(|docs|, f, DocumentFrequency(docs, u), ln);
    IdfOfShare(|docs|, f, k, ln);
  }

  lemma IdfOfAll(n: nat, f: nat, ln: real -> real)
    requires IsLog(ln) && f <= n
    ensures IdfOf(n, f, ln) == 1.0 <==> f == n
  {
    var ratio := (n + 1) as real / (f + 1) as real;
    WholeShare((n + 1) as real);
    if f < n {
      InverseOrder((n + 1) as real, (f + 1) as real, (n + 1) as real);
      assert ln(1.0) < ln(ratio);
    }
  }

  lemma IdfOrder(n: nat, f: nat, g: nat, ln: real -> real)
    requires IsLog(ln)
    ensures IdfOf(n, f, ln) > IdfOf(n, g, ln) <==> f < g
  {
    InverseLogs((n + 1) as real, (f + 1) as real, (g + 1) as real, ln);
  }

  lemma IdfOfShare(n: nat, f: nat, k: nat, ln: real -> real)
    ensures n + 1 == k * (f + 1) ==> IdfOf(n, f, ln) == 1.0 + ln(k as real)
  {
    if n + 1 == k * (f + 1) {
      ExactRatio((n + 1) as real, k as real, (f + 1) as real);
    }
  }

  lemma ExactRatio(n: real, k: real, a: real)
    requires a > 0.0 && n == k * a
    ensures n / a == k
  {
  }

  lemma InverseLogs(n: real, a: real, b: real, ln: real -> real)
    requires IsLog(ln) && n > 0.0 && a > 0.0 && b > 0.0
    ensures ln(n / b) < ln(n / a) <==> a < b
    ensures ln(n / a) < ln(n / b) <==> b < a
  {
    InverseOrder(n, a, b);
    InverseOrder(n, b, a);
    LogOrder(ln, n / b, n / a);
    LogOrder(ln, n / a, n / b);
  }

  lemma InverseOrder(n: real, a: real, b: real)
    requires n > 0.0 && a > 0.0 && b > 0.0
    ensures n / a > 0.0 && n / b > 0.0 && (n / b < n / a <==> a < b)
  {
    var x, y := n / a, n / b;
    assert x * a == n && y * b == n;
    DivBound(n, 0.0, a);
    DivBound(n, 0.0, b);
    if a < b {
      MulPos(x, b - a);
      assert x * b > n;
    } else {
      MulNonNeg(y, a - b);
      assert y * a >= n;
    }
  }

  lemma {:induction false} FrequencyOfAll(docs: seq<seq<string>>, t: string)
    ensures DocumentFrequency(docs, t) == |docs| <==> forall d | d in docs :: t in d
  {
    if docs != [] {
      FrequencyOfAll(docs[1..], t);
      assert forall d :: d in docs <==> d == docs[0] || d in docs[1..];
    }
  }

  /** A term weighs its frequency as long as nothing is known about it, and its frequency times its inverse
      document frequency afterwards. */
  lemma {:induction false} UnknownTermsWeighOnce(tf: Vector, idf: Vector)
    ensures Weighted(tf, map[]) == tf
    ensures tf.Keys !! idf.Keys ==> Weighted(tf, idf) == tf
    ensures forall t | t in tf && t in idf :: Weighted(tf, idf)[t] == tf[t] * idf[t]
  {
    if tf.Keys !! idf.Keys {
      assert forall t | t in tf :: t !in idf;
      assert Weighted(tf, idf).Keys == tf.Keys;
    }
  }
}
