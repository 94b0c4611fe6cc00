/** The append-only event store with its search index and retrieval provenance. */
module MemoryStore {
  import opened Rounding
  import opened Sequences
  import opened Sorting
  import opened SparseVectors
  import opened Tfidf
  import opened Retrieval

  datatype Event = Event(eventType: string, content: string, source: string, eventId: string, timestamp: string,
                         metadata: map<string, string>)

  datatype SearchHit = SearchHit(docId: string, score: real, content: string, source: string, eventType: string,
                                 salience: real, retrievals: nat)

  datatype ProvenanceRecord = ProvenanceRecord(docId: string, retrievalCount: nat, sources: seq<string>)

  type Provenance = map<string, ProvenanceRecord>

  type Tokenizer = string -> seq<string>

  function TextOf(e: Event): string {
    e.eventType + ": " + e.content
  }

  /** The index entry of an event; its own metadata wins over the standard keys. */
  function EntryOf(e: Event, tokenize: Tokenizer, ln: real -> real): IndexEntry {
    var tokens := tokenize(TextOf(e));
    IndexEntry(e.eventId, TextOf(e), e.source, tokens, ComputeTf(tokens, ln),
               map["event_type" := e.eventType, "timestamp" := e.timestamp] + e.metadata)
  }

  function EntriesOf(events: seq<Event>, tokenize: Tokenizer, ln: real -> real): (r: seq<IndexEntry>)
    ensures |r| == |events| && forall i | 0 <= i < |r| :: r[i] == EntryOf(events[i], tokenize, ln)
  {
    seq(|events|, i requires 0 <= i < |events| => EntryOf(events[i], tokenize, ln))
  }

  lemma EntriesSnoc(events: seq<Event>, e: Event, tokenize: Tokenizer, ln: real -> real)
    ensures EntriesOf(events + [e], tokenize, ln) == EntriesOf(events, tokenize, ln) + [EntryOf(e, tokenize, ln)]
  {
  }

  /** Counts one more retrieval of the entry. */
  function Touched(p: Provenance, e: IndexEntry): Provenance {
    var rec := if e.docId in p then p[e.docId] else ProvenanceRecord(e.docId, 0, []);
    p[e.docId := rec.(retrievalCount := rec.retrievalCount + 1, sources := rec.sources + [e.source])]
  }

  function TouchedAll(p: Provenance, hits: seq<(IndexEntry, real)>): Provenance {
    if hits == [] then p else Touched(TouchedAll(p, hits[..|hits| - 1]), hits[|hits| - 1].0)
  }

  function RetrievalsOf(p: Provenance, docId: string): nat {
    if docId in p then p[docId].retrievalCount else 0
  }

  function HitsOn(hits: seq<(IndexEntry, real)>, docId: string): nat {
    if hits == [] then 0
    else HitsOn(hits[..|hits| - 1], docId) + if hits[|hits| - 1].0.docId == docId then 1 else 0
  }

  /** Every retrieval is counted once, under the document retrieved. */
  lemma {:induction false} RetrievalsCounted(p: Provenance, hits: seq<(IndexEntry, real)>, docId: string)
    ensures RetrievalsOf(TouchedAll(p, hits), docId) == RetrievalsOf(p, docId) + HitsOn(hits, docId)
  {
    if hits != [] {
      RetrievalsCounted(p, hits[..|hits| - 1], docId);
    }
  }

  /** What the search reports for the i-th hit: its own retrieval is already counted. */
  function ReportOf(hits: seq<(IndexEntry, real)>, i: nat, p: Provenance): SearchHit
    requires i < |hits|
  {
    var e := hits[i].0;
    SearchHit(e.docId, hits[i].1, e.text, e.source, EventTypeOf(e), Salience(e, DefaultModel()),
              RetrievalsOf(TouchedAll(p, hits[..i + 1]), e.docId))
  }

  const REINDEX_LIMIT := 5000

  class MemoryStore {
    const tokenize: Tokenizer
    const index: TfidfIndex
    var log: seq<Event>
    var provenance: Provenance

    ghost predicate Valid()
      reads this, index
    {
      && index.Valid()
      && |index.entries| <= |log|
      && index.entries == EntriesOf(LastN(log, |index.entries|), tokenize, index.ln)
      && index.idf == Idf(TokensOf(index.entries), index.ln)
    }

    /** Opens a store over an existing log. */
    constructor (existing: seq<Event>, tokenizer: Tokenizer, ln: real -> real, sqrt: real -> real)
      requires IsLog(ln) && IsSqrt(sqrt)
      ensures Valid() && fresh(index) && log == existing && provenance == map[]
      ensures tokenize == tokenizer && index.ln == ln && index.sqrt == sqrt
      ensures index.entries == EntriesOf(LastN(existing, REINDEX_LIMIT), tokenizer, ln)
    {
      tokenize := tokenizer;
      index := new TfidfIndex(ln, sqrt);
      log := existing;
      provenance := map[];
      new;
      RebuildIndex();
    }

    method Append(event: Event)
      requires Valid()
      modifies this`log, index
      ensures Valid()
      ensures log == old(log) + [event]
      ensures index.entries == old(index.entries) + [EntryOf(event, tokenize, index.ln)]
    {
      var entry := EntryOf(event, tokenize, index.ln);
      log := log + [event];
      LastNExtends(old(log), |index.entries|, event);
      EntriesSnoc(LastN(old(log), |index.entries|), event, tokenize, index.ln);
      var _ := index.Add(entry.docId, entry.text, entry.tokens, entry.source, entry.metadata);
      index.RecomputeIdf();
    }

    /** The slice log[-limit:]. */
    method Tail(limit: int) returns (events: seq<Event>)
      ensures events == Drop(log, -limit)
    {
      events := Drop(log, -limit);
    }

    /** Ranked hits; every hit's provenance is counted before it is reported. */
    method Search(query: string, topK: int) returns (results: seq<SearchHit>)
      requires Valid()
      modifies this`provenance
      ensures Valid()
      ensures var hits := SearchResult(index.entries, tokenize(query), topK, index.idf, index.ln, index.sqrt,
                                       Some(MakeRetrievalScorer(DefaultModel())));
              && provenance == TouchedAll(old(provenance), hits)
              && |results| == |hits|
              && forall i | 0 <= i < |hits| :: results[i] == ReportOf(hits, i, old(provenance))
    {
      var raw := index.Search(tokenize(query), topK, Some(MakeRetrievalScorer(DefaultModel())));
      results := Report(raw);
    }

    method Report(raw: seq<(IndexEntry, real)>) returns (results: seq<SearchHit>)
      modifies this`provenance
      ensures provenance == TouchedAll(old(provenance), raw)
      ensures |results| == |raw|
      ensures forall i | 0 <= i < |raw| :: results[i] == ReportOf(raw, i, old(provenance))
    {
      results := [];
      for i := 0 to |raw|
        invariant provenance == TouchedAll(old(provenance), raw[..i])
        invariant |results| == i && forall j | 0 <= j < i :: results[j] == ReportOf(raw, j, old(provenance))
      {
        assert raw[..i + 1][..i] == raw[..i];
        var entry, score := raw[i].0, raw[i].1;
        var retrievals := Touch(entry);
        var salience := ComputeSalience(entry, DefaultModel());
        results := results + [SearchHit(entry.docId, score, entry.text, entry.source, EventTypeOf(entry), salience,
            retrievals)];
      }
      assert raw[..|raw|] == raw;
    }

    method Touch(entry: IndexEntry) returns (retrievals: nat)
      modifies this`provenance
      ensures provenance == Touched(old(provenance), entry)
      ensures retrievals == RetrievalsOf(provenance, entry.docId)
    {
      if entry.docId in provenance {
        var prov := provenance[entry.docId];
        prov := prov.(retrievalCount := prov.retrievalCount + 1);
        prov := prov.(sources := prov.sources + [entry.source]);
        provenance := provenance[entry.docId := prov];
      } else {
        assert [] + [entry.source] == [entry.source];
        provenance := provenance[entry.docId := ProvenanceRecord(entry.docId, 1, [entry.source])];
      }
      retrievals := provenance[entry.docId].retrievalCount;
    }

    /** Clears the index and fills it from the last 5000 events of the log. */
    method RebuildIndex()
      requires index.Valid()
      modifies index
      ensures Valid()
      ensures index.entries == EntriesOf(LastN(log, REINDEX_LIMIT), tokenize, index.ln)
    {
      index.Clear();
      var events := Tail(REINDEX_LIMIT);
      TailIsLast(log, REINDEX_LIMIT);
      for i := 0 to |events|
        invariant index.Valid()
        invariant index.entries == EntriesOf(events[..i], tokenize, index.ln)
      {
        var entry := EntryOf(events[i], tokenize, index.ln);
        var _ := index.Add(entry.docId, entry.text, entry.tokens, entry.source, entry.metadata);
        assert events[..i + 1] == events[..i] + [events[i]];
      }
      assert events[..|events|] == events;
      index.RecomputeIdf();
    }
  }

  lemma LastNExtends<T>(s: seq<T>, n: nat, x: T)
    requires n <= |s|
    ensures LastN(s + [x], n + 1) == LastN(s, n) + [x]
  {
  }

  // ----- Laws

  lemma TailIsLast<T>(log: seq<T>, limit: int)
    requires limit > 0
    ensures Drop(log, -limit) == LastN(log, limit)
  {
  }

  /** A tail is the log's last elements and no more than the limit exactly when the limit is positive: a
      limit of zero gives the whole log, a negative one the log without its first elements. */
  lemma {:induction false} TailWithinLimit<T>(log: seq<T>, limit: int)
    ensures |Drop(log, -limit)| <= limit <==> limit > 0 || (limit == 0 && log == [])
    ensures limit > 0 ==> Drop(log, -limit) == LastN(log, limit)
    ensures limit == 0 ==> Drop(log, -limit) == log
  {
    if limit > 0 {
      TailIsLast(log, limit);
    }
  }

  /** Reopening a store that indexed its whole log rebuilds the same index, entries and frequencies,
      exactly when the log holds at most 5000 events. */
  lemma {:induction false} ReopenRoundTrip(log: seq<Event>, tokenize: Tokenizer, ln: real -> real)
    ensures EntriesOf(LastN(log, REINDEX_LIMIT), tokenize, ln) == EntriesOf(log, tokenize, ln)
         <==> |log| <= 5000
    ensures |log| <= 5000 ==>
              Idf(TokensOf(EntriesOf(LastN(log, REINDEX_LIMIT), tokenize, ln)), ln)
                  == Idf(TokensOf(EntriesOf(log, tokenize, ln)), ln)
  {
    if |log| > REINDEX_LIMIT {
      assert |EntriesOf(LastN(log, REINDEX_LIMIT), tokenize, ln)| < |EntriesOf(log, tokenize, ln)|;
    }
  }

  /** For k >= 0 a search returns exactly min(k, index size) hits in descending order, whatever the query,
      and none it drops outranks one it returns. */
  lemma {:induction false} SearchIsTopK(store: MemoryStore, query: string, k: nat)
    requires store.Valid()
    ensures var score := Scoring(ComputeTf(store.tokenize(query), store.index.ln), store.index.idf, store.index.sqrt,
                                 Some(MakeRetrievalScorer(DefaultModel())));
            var hits := SearchResult(store.index.entries, store.tokenize(query), k, store.index.idf, store.index.ln,
                                     store.index.sqrt, Some(MakeRetrievalScorer(DefaultModel())));
            var dropped := Hits(Drop(Sort(Ranking(store.index.entries, score)), k));
            && |hits| == (if k <= |store.index.entries| then k else |store.index.entries|)
            && |hits| + |dropped| == |store.index.entries|
            && (forall i, j :: 0 <= i < j < |hits| ==> hits[i].1 >= hits[j].1)
            && (forall i, j :: 0 <= i < |hits| && 0 <= j < |dropped| ==> hits[i].1 >= dropped[j].1)
  {
    var index := store.index;
    var scorer := Some(MakeRetrievalScorer(DefaultModel()));
    var score := Scoring(ComputeTf(store.tokenize(query), index.ln), index.idf, index.sqrt, scorer);
    DefaultNonNegative();
    forall e | e in index.entries ensures score(e) > 0.0 {
      BlendedPositive(e, store.tokenize(query), index.idf, index.ln, index.sqrt, DefaultModel());
    }
    RankedTopK(index.entries, k, score);
    SortCorrect(Ranking(index.entries, score));
  }

  /** Every hit is an entry of the index, reported with the rounded sum of seven tenths of its similarity to
      the query and three tenths of its salience. */
  lemma {:induction false} HitScores(store: MemoryStore, query: string, k: nat, i: nat)
    requires store.Valid()
    requires i < |SearchResult(store.index.entries, store.tokenize(query), k, store.index.idf, store.index.ln,
                               store.index.sqrt, Some(MakeRetrievalScorer(DefaultModel())))|
    ensures var hit := SearchResult(store.index.entries, store.tokenize(query), k, store.index.idf, store.index.ln,
                                    store.index.sqrt, Some(MakeRetrievalScorer(DefaultModel())))[i];
            var q := Weighted(ComputeTf(store.tokenize(query), store.index.ln), store.index.idf);
            && hit.0 in store.index.entries
            && hit.1 == Round6(0.7 * Cosine(q, Weighted(hit.0.tf, store.index.idf), store.index.sqrt)
                               + 0.3 * Salience(hit.0, DefaultModel()))
  {
    var tokens, model := store.tokenize(query), DefaultModel();
    var score := Scoring(ComputeTf(tokens, store.index.ln), store.index.idf, store.index.sqrt,
                         Some(MakeRetrievalScorer(model)));
    var ranking := Ranking(store.index.entries, score);
    var hit := Hits(Take(Sort(ranking), k))[i];
    RankedScores(store.index.entries, score, k, i);
    BlendedScore(hit.0, tokens, store.index.idf, store.index.ln, store.index.sqrt, model);
  }

  /** An event's own metadata wins over its type. */
  lemma {:induction false} MetadataWins(e: Event, tokenize: Tokenizer, ln: real -> real)
    ensures EventTypeOf(EntryOf(e, tokenize, ln))
         == if "event_type" in e.metadata then e.metadata["event_type"] else e.eventType
  {
  }

  /** An event that is searched for by its own type and content gets all of the similarity's share. */
  lemma {:induction false} OwnTextScores(e: Event, tokenize: Tokenizer, idf: Vector, ln: real -> real,
                                         sqrt: real -> real, model: SalienceModel)
    requires IsLog(ln) && IsSqrt(sqrt) && AtLeastOne(idf)
    requires tokenize(e.eventType + ": " + e.content) != []
    ensures var queryTf := ComputeTf(tokenize(e.eventType + ": " + e.content), ln);
            var entry := EntryOf(e, tokenize, ln);
            Scoring(queryTf, idf, sqrt, Some(MakeRetrievalScorer(model)))(entry) == 0.7 + 0.3 * Salience(entry, model)
  {
    BlendedScore(EntryOf(e, tokenize, ln), tokenize(e.eventType + ": " + e.content), idf, ln, sqrt, model);
  }

  function SourcesOf(p: Provenance, docId: string): seq<string> {
    if docId in p then p[docId].sources else []
  }

  /** The sources of the hits on one document, in order. */
  function HitSources(hits: seq<(IndexEntry, real)>, docId: string): seq<string> {
    if hits == [] then []
    else
      var last := hits[|hits| - 1].0;
      HitSources(hits[..|hits| - 1], docId) + if last.docId == docId then [last.source] else []
  }

  /** Every retrieval adds its source, in order, to those of the document. */
  lemma {:induction false} SourcesRecorded(p: Provenance, hits: seq<(IndexEntry, real)>, docId: string)
    ensures SourcesOf(TouchedAll(p, hits), docId) == SourcesOf(p, docId) + HitSources(hits, docId)
  {
    if hits != [] {
      SourcesRecorded(p, hits[..|hits| - 1], docId);
    }
  }
}
