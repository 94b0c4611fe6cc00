/** Salience and the scorer that blends it with similarity. */
module Retrieval {
  import opened Rounding
  import opened Sequences
  import opened SparseVectors
  import opened Tfidf

  type Weights = map<string, real>

  const DEFAULT_SOURCE_WEIGHTS: Weights :=
    map["event_journal" := 0.18, "memory_journal" := 0.15, "deliberation_log" := 0.16,
        "sensory_stream" := 0.12, "audit_log" := 0.20]

  const DEFAULT_EVENT_TYPE_WEIGHTS: Weights :=
    map["decision" := 0.22, "safety_event" := 0.22, "session_start" := 0.20, "session_end" := 0.20,
        "checkpoint" := 0.18,
        "anomaly" := 0.18, "correction" := 0.16]

  const DEFAULT_SIGNAL_TERMS: Dict<string, real> :=
    [("error", 0.18), ("failed", 0.18), ("anomaly", 0.18), ("critical", 0.18), ("warning", 0.14), ("risk", 0.14),
     ("rollback", 0.14), ("goal", 0.12), ("plan", 0.12), ("decision", 0.12), ("intent", 0.12)]

  datatype SalienceModel = SalienceModel(sources: Weights, eventTypes: Weights, signals: Dict<string, real>) {
    ghost predicate NonNegative() {
      && (forall k | k in sources :: sources[k] >= 0.0)
      && (forall k | k in eventTypes :: eventTypes[k] >= 0.0)
      && (forall i | 0 <= i < |signals| :: signals[i].1 >= 0.0)
    }
  }

  function DefaultModel(): SalienceModel {
    SalienceModel(DEFAULT_SOURCE_WEIGHTS, DEFAULT_EVENT_TYPE_WEIGHTS, DEFAULT_SIGNAL_TERMS)
  }

  /** Configured weights, where an absent or empty dictionary means the default. */
  function ModelOr(sources: Weights, eventTypes: Weights, signals: Dict<string, real>): SalienceModel {
    SalienceModel(if |sources| == 0 then DEFAULT_SOURCE_WEIGHTS else sources,
                  if |eventTypes| == 0 then DEFAULT_EVENT_TYPE_WEIGHTS else eventTypes,
                  if signals == [] then DEFAULT_SIGNAL_TERMS else signals)
  }

  function Lower(c: char): char {
    if 'A' <= c <= 'Z' then c + (32 as char) else c
  }

  function LowerCase(text: string): string {
    seq(|text|, i requires 0 <= i < |text| => Lower(text[i]))
  }

  predicate OccursAt(text: string, term: string, i: int)
    requires 0 <= i <= |text| - |term|
  {
    text[i..i + |term|] == term
  }

  predicate Contains(text: string, term: string) {
    exists i | 0 <= i <= |text| - |term| :: OccursAt(text, term, i)
  }

  function WeightOr(w: Weights, k: string): real {
    if k in w then w[k] else 0.0
  }

  function EventTypeOf(entry: IndexEntry): string {
    if "event_type" in entry.metadata then entry.metadata["event_type"] else ""
  }

  /** The weights of the signal terms that occur in the text. */
  function SignalScore(signals: Dict<string, real>, text: string): real {
    if signals == [] then 0.0
    else (if Contains(text, signals[0].0) then signals[0].1 else 0.0) + SignalScore(signals[1..], text)
  }

  function RawSalience(entry: IndexEntry, model: SalienceModel): real {
    0.1 + WeightOr(model.sources, entry.source) + WeightOr(model.eventTypes, EventTypeOf(entry))
    + SignalScore(model.signals, LowerCase(entry.text))
  }

  function Round3(x: real): real {
    Quantize(x, 1000.0)
  }

  function Salience(entry: IndexEntry, model: SalienceModel): real {
    var raw := RawSalience(entry, model);
    Round3(if raw < 1.0 then raw else 1.0)
  }

  method ComputeSalience(entry: IndexEntry, model: SalienceModel) returns (salience: real)
    ensures salience == Salience(entry, model)
  {
    var score := 0.1;
    var textLower := LowerCase(entry.text);
    score := score + WeightOr(model.sources, entry.source);
    score := score + WeightOr(model.eventTypes, EventTypeOf(entry));
    assert model.signals[0..] == model.signals;
    for i := 0 to |model.signals|
      invariant score + SignalScore(model.signals[i..], textLower) == RawSalience(entry, model)
    {
      assert model.signals[i..][1..] == model.signals[i + 1..];
      if Contains(textLower, model.signals[i].0) {
        score := score + model.signals[i].1;
      }
    }
    salience := Round3(if score < 1.0 then score else 1.0);
  }

  /** Seventy per cent similarity, thirty per cent salience. */
  function Blend(similarity: real, salience: real): real {
    similarity * 0.7 + salience * 0.3
  }

  function MakeRetrievalScorer(model: SalienceModel): Scorer {
    (entry, queryTf, similarity) => Blend(similarity, Salience(entry, model))
  }

  lemma {:induction false} SignalScoreNonNegative(signals: Dict<string, real>, text: string)
    requires forall i | 0 <= i < |signals| :: signals[i].1 >= 0.0
    ensures SignalScore(signals, text) >= 0.0
  {
    if signals != [] {
      SignalScoreNonNegative(signals[1..], text);
    }
  }

  /** With weights that are not negative every salience lies between one tenth and one, after rounding. */
  lemma {:induction false} SalienceRange(entry: IndexEntry, model: SalienceModel)
    requires model.NonNegative()
    ensures 0.1 <= Salience(entry, model) <= 1.0
  {
    SignalScoreNonNegative(model.signals, LowerCase(entry.text));
    var raw := RawSalience(entry, model);
    Round3Range(if raw < 1.0 then raw else 1.0);
  }

  lemma Round3Range(x: real)
    requires 0.1 <= x <= 1.0
    ensures 0.1 <= Round3(x) <= 1.0
  {
    QuantizeIdentity(0.1, 1000.0);
    QuantizeIdentity(1.0, 1000.0);
    QuantizeMonotone(0.1, x, 1000.0);
    QuantizeMonotone(x, 1.0, 1000.0);
  }

  lemma DefaultNonNegative()
    ensures DefaultModel().NonNegative()
  {
  }

  /** Blended scores are positive for every entry and query, sharing a term or not. */
  lemma {:induction false} BlendedPositive(entry: IndexEntry, queryTokens: seq<string>, idf: Vector,
          ln: real -> real, sqrt: real -> real,
                        model: SalienceModel)
    requires IsLog(ln) && IsSqrt(sqrt) && AtLeastOne(idf) && model.NonNegative()
    requires entry.tf == ComputeTf(entry.tokens, ln)
    ensures Scoring(ComputeTf(queryTokens, ln), idf, sqrt, Some(MakeRetrievalScorer(model)))(entry) > 0.0
  {
    SimilarityLaws(entry.tokens, queryTokens, idf, ln, sqrt);
    SalienceRange(entry, model);
  }

  /** What a search scores: beyond three tenths of the salience exactly seven tenths of the similarity; so
      nothing for an entry that shares no term with the query, and all of it for one that has the query's
      own tokens, in whatever order. */
  lemma {:induction false} BlendedScore(entry: IndexEntry, queryTokens: seq<string>, idf: Vector,
                                        ln: real -> real, sqrt: real -> real, model: SalienceModel)
    requires IsLog(ln) && IsSqrt(sqrt) && AtLeastOne(idf)
    requires entry.tf == ComputeTf(entry.tokens, ln)
    ensures var score := Scoring(ComputeTf(queryTokens, ln), idf, sqrt, Some(MakeRetrievalScorer(model)))(entry);
            var share := 0.3 * Salience(entry, model);
            && score - share == 0.7 * Cosine(Weighted(ComputeTf(queryTokens, ln), idf), Weighted(entry.tf, idf), sqrt)
            && share <= score <= 0.7 + share
            && (score == share <==> (set t | t in queryTokens) !! (set t | t in entry.tokens))
            && (queryTokens != [] && multiset(queryTokens) == multiset(entry.tokens) ==> score == 0.7 + share)
  {
    SimilarityLaws(entry.tokens, queryTokens, idf, ln, sqrt);
    if queryTokens != [] && multiset(queryTokens) == multiset(entry.tokens) {
      SameTokens(queryTokens, entry.tokens, ln);
      assert entry.tokens != [];
    }
  }

  lemma SameTokens(a: seq<string>, b: seq<string>, ln: real -> real)
    requires multiset(a) == multiset(b)
    ensures ComputeTf(a, ln) == ComputeTf(b, ln)
  {
    assert |a| == |multiset(a)| == |multiset(b)| == |b|;
    forall t ensures t in a <==> t in b {
      assert t in multiset(a) <==> t in multiset(b);
    }
  }

  /** An entry with the query's own tokens outranks every entry that shares none of them, however salient. */
  lemma {:induction false} ExactMatchFirst(a: IndexEntry, b: IndexEntry, queryTokens: seq<string>, idf: Vector,
                                           ln: real -> real, sqrt: real -> real, model: SalienceModel)
    requires IsLog(ln) && IsSqrt(sqrt) && AtLeastOne(idf) && model.NonNegative()
    requires a.tf == ComputeTf(a.tokens, ln) && b.tf == ComputeTf(b.tokens, ln)
    requires queryTokens != [] && multiset(queryTokens) == multiset(a.tokens)
    requires (set t | t in queryTokens) !! (set t | t in b.tokens)
    ensures var score := Scoring(ComputeTf(queryTokens, ln), idf, sqrt, Some(MakeRetrievalScorer(model)));
            score(a) >= score(b) + 0.43
  {
    BlendedScore(a, queryTokens, idf, ln, sqrt, model);
    BlendedScore(b, queryTokens, idf, ln, sqrt, model);
    SalienceRange(a, model);
    SalienceRange(b, model);
  }

  /** A salience is within half a unit of the third decimal of the weights that apply, capped at one. */
  lemma {:induction false} SalienceClose(entry: IndexEntry, model: SalienceModel)
    ensures var raw := 0.1 + (if entry.source in model.sources then model.sources[entry.source] else 0.0)
                     + WeightOr(model.eventTypes, EventTypeOf(entry))
                     + SignalScore(model.signals, LowerCase(entry.text));
            && (raw <= 1.0 ==> Abs(Salience(entry, model) - raw) <= 0.0005)
            && (raw >= 1.0 ==> Salience(entry, model) == 1.0)
  {
    QuantizeError(RawSalience(entry, model), 1000.0);
    QuantizeIdentity(1.0, 1000.0);
  }

  /** A term counts wherever it stands in the text, and only then. */
  lemma {:induction false} ContainsExactly(text: string, term: string)
    ensures Contains(text, term) <==> exists before, after :: text == before + term + after
  {
    if Contains(text, term) {
      var i :| 0 <= i <= |text| - |term| && OccursAt(text, term, i);
      assert text == text[..i] + term + text[i + |term|..];
    }
    forall before, after | text == before + term + after ensures Contains(text, term) {
      assert OccursAt(text, term, |before|);
    }
  }

  /** The same letters, in either case. */
  predicate SameLetters(a: string, b: string) {
    |a| == |b| && forall i | 0 <= i < |a| ::
      || a[i] == b[i]
      || ('A' <= a[i] <= 'Z' && b[i] as int == a[i] as int + 32)
      || ('A' <= b[i] <= 'Z' && a[i] as int == b[i] as int + 32)
  }

  /** Upper and lower case make no difference to the salience. */
  lemma {:induction false} CaseIgnored(entry: IndexEntry, text: string, model: SalienceModel)
    requires SameLetters(entry.text, text)
    ensures Salience(entry.(text := text), model) == Salience(entry, model)
  {
    assert LowerCase(entry.text) == LowerCase(text);
  }

  /** Configured weights replace the defaults one dictionary at a time, and only when they are not empty. */
  lemma ConfiguredOrDefault(sources: Weights, eventTypes: Weights, signals: Dict<string, real>)
    ensures ModelOr(map[], map[], []) == DefaultModel()
    ensures |sources| > 0 && |eventTypes| > 0 && signals != [] ==>
              ModelOr(sources, eventTypes, signals) == SalienceModel(sources, eventTypes, signals)
  {
  }

  /** What an entry without signal terms is worth under the default weights. */
  lemma {:induction false} PlainSalience(e: IndexEntry)
    requires SignalScore(DEFAULT_SIGNAL_TERMS, LowerCase(e.text)) == 0.0
    ensures EventTypeOf(e) !in DEFAULT_EVENT_TYPE_WEIGHTS ==>
              Salience(e, DefaultModel()) ==
              if e.source == "event_journal" then 0.28
              else if e.source == "memory_journal" then 0.25
              else if e.source == "deliberation_log" then 0.26
              else if e.source == "sensory_stream" then 0.22
              else if e.source == "audit_log" then 0.3
              else 0.1
    ensures e.source !in DEFAULT_SOURCE_WEIGHTS ==>
              Salience(e, DefaultModel()) ==
              if EventTypeOf(e) == "decision" || EventTypeOf(e) == "safety_event" then 0.32
              else if EventTypeOf(e) == "session_start" || EventTypeOf(e) == "session_end" then 0.3
              else if EventTypeOf(e) == "checkpoint" || EventTypeOf(e) == "anomaly" then 0.28
              else if EventTypeOf(e) == "correction" then 0.26
              else 0.1
  {
    Thousandths();
  }

  lemma Thousandths()
    ensures Round3(0.1) == 0.1 && Round3(0.22) == 0.22 && Round3(0.25) == 0.25 && Round3(0.26) == 0.26
         && Round3(0.28) == 0.28 && Round3(0.3) == 0.3 && Round3(0.32) == 0.32
  {
    QuantizeIdentity(0.1, 1000.0);
    QuantizeIdentity(0.22, 1000.0);
    QuantizeIdentity(0.25, 1000.0);
    QuantizeIdentity(0.26, 1000.0);
    QuantizeIdentity(0.28, 1000.0);
    QuantizeIdentity(0.3, 1000.0);
    QuantizeIdentity(0.32, 1000.0);
  }

  /** Signal terms add up, each with its weight once, however often it stands in the text. */
  lemma {:induction false} SignalsAddUp(a: Dict<string, real>, b: Dict<string, real>, term: string, w: real,
                                        text: string)
    ensures SignalScore(a + b, text) == SignalScore(a, text) + SignalScore(b, text)
    ensures (exists before, after :: text == before + term + after) ==> SignalScore([(term, w)], text) == w
    ensures !(exists before, after :: text == before + term + after) ==> SignalScore([(term, w)], text) == 0.0
  {
    SignalsConcat(a, b, text);
    ContainsExactly(text, term);
    assert [(term, w)][1..] == [];
  }

  lemma {:induction false} SignalsConcat(a: Dict<string, real>, b: Dict<string, real>, text: string)
    ensures SignalScore(a + b, text) == SignalScore(a, text) + SignalScore(b, text)
  {
    if a == [] {
      assert a + b == b;
    } else {
      assert (a + b)[0] == a[0] && (a + b)[1..] == a[1..] + b;
      SignalsConcat(a[1..], b, text);
    }
  }
}
