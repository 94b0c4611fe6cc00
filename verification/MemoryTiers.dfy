/** Which entries compaction keeps, in terms of their salience and exact age. */
module MemoryTiers {
  import opened Sequences
  import opened Sorting
  import opened Tfidf
  import opened Retrieval
  import opened MemoryPyramid

  /** Every entry of a tier's bucket is in its ranking. */
  lemma {:induction false} BucketHolds(entries: seq<IndexEntry>, model: SalienceModel, age: Clock, e: IndexEntry)
    requires e in entries
    ensures var d := ClassifyOne(e, model, age); KeyOf(e, d) in Bucket(entries, d.tier, model, age)
  {
    if e != entries[0] {
      assert e in entries[1..];
      BucketHolds(entries[1..], model, age, e);
    }
  }

  lemma RankedHolds(entries: seq<IndexEntry>, model: SalienceModel, age: Clock, e: IndexEntry)
    requires e in entries
    ensures e in Items(Ranked(entries, ClassifyOne(e, model, age).tier, model, age))
  {
    var d := ClassifyOne(e, model, age);
    var bucket, ranked := Bucket(entries, d.tier, model, age), Ranked(entries, d.tier, model, age);
    BucketHolds(entries, model, age, e);
    SortCorrect(bucket);
    assert KeyOf(e, d) in multiset(bucket) && KeyOf(e, d) in multiset(ranked);
    var i :| 0 <= i < |ranked| && ranked[i] == KeyOf(e, d);
    assert Items(ranked)[i] == e;
  }

  lemma {:induction false} BucketSize(entries: seq<IndexEntry>, tier: Tier, model: SalienceModel, age: Clock)
    ensures |Bucket(entries, tier, model, age)| <= |entries|
  {
    if entries != [] {
      BucketSize(entries[1..], tier, model, age);
    }
  }

  /** A tier has no room, or room for every entry. */
  predicate AllOrNone(room: int, entries: seq<IndexEntry>) {
    room == 0 || room >= |entries|
  }

  predicate WholeTiers(c: TierCapacity, entries: seq<IndexEntry>) {
    AllOrNone(c.active, entries) && AllOrNone(c.working, entries) && AllOrNone(c.longTerm, entries)
  }

  lemma TierCut(entries: seq<IndexEntry>, tier: Tier, room: int, model: SalienceModel, age: Clock)
    requires AllOrNone(room, entries)
    ensures KeptOf(entries, tier, room, model, age) == if room == 0 then [] else Ranked(entries, tier, model, age)
    ensures DroppedOf(entries, tier, room, model, age) == if room == 0 then Ranked(entries, tier, model, age) else []
  {
    BucketSize(entries, tier, model, age);
    RankedMembers(entries, tier, model, age);
    var ranked := Ranked(entries, tier, model, age);
    assert ranked[..0] == [] && ranked[0..] == ranked && ranked[..|ranked|] == ranked && ranked[|ranked|..] == [];
  }

  lemma PartOfRetained(entries: seq<IndexEntry>, capacity: TierCapacity, model: SalienceModel, age: Clock,
                       tier: Tier, e: IndexEntry)
    requires tier != Archive && e in Items(KeptOf(entries, tier, RoomFor(capacity, tier), model, age))
    ensures e in RetainedParts(entries, capacity, model, age)
  {
  }

  lemma PartOfEvicted(entries: seq<IndexEntry>, capacity: TierCapacity, model: SalienceModel, age: Clock,
                      tier: Tier, e: IndexEntry)
    requires e in Items(DroppedOf(entries, tier, RoomFor(capacity, tier), model, age))
    ensures e in EvictedParts(entries, capacity, model, age)
  {
    assert tier == Archive ==> DroppedOf(entries, tier, RoomFor(capacity, tier), model, age)
                               == Ranked(entries, tier, model, age);
  }

  /** An entry is kept exactly when its own tier keeps it. */
  lemma KeptByTier(entries: seq<IndexEntry>, capacity: TierCapacity, model: SalienceModel, age: Clock, e: IndexEntry)
    requires e in entries && WholeTiers(capacity, entries)
    ensures e in RetainedParts(entries, capacity, model, age)
       <==> RoomFor(capacity, ClassifyOne(e, model, age).tier) > 0
    ensures e in EvictedParts(entries, capacity, model, age)
       <==> RoomFor(capacity, ClassifyOne(e, model, age).tier) == 0
  {
    var tier := ClassifyOne(e, model, age).tier;
    RankedHolds(entries, model, age, e);
    TierCut(entries, tier, RoomFor(capacity, tier), model, age);
    RetainedFromTier(entries, capacity, model, age, e);
    EvictedFromTier(entries, capacity, model, age, e);
    if RoomFor(capacity, tier) > 0 {
      PartOfRetained(entries, capacity, model, age, tier, e);
    } else {
      PartOfEvicted(entries, capacity, model, age, tier, e);
    }
  }

  /** With distinct ids, and room for all or for none in each tier, an entry is retained exactly when the
      most demanding tier it qualifies for has room: half salient and under an hour old, three tenths and
      under a day, or two tenths at any age. Otherwise it is evicted. */
  lemma {:induction false} RetainedExactly(entries: seq<IndexEntry>, capacity: TierCapacity, model: SalienceModel,
                                           age: Clock, e: IndexEntry)
    requires DistinctIds(entries) && e in entries && WholeTiers(capacity, entries)
    ensures var c, s, hours := Compacted(entries, capacity, model, age), Salience(e, model), age(e);
            var active, working := s >= 0.5 && hours < 1.0, s >= 0.3 && hours < 24.0;
            && (e in c.retained <==>
                  || (active && capacity.active > 0)
                  || (working && !active && capacity.working > 0)
                  || (s >= 0.2 && !working && capacity.longTerm > 0))
            && (e in c.evicted <==> e !in c.retained)
  {
    var retained, evicted := RetainedParts(entries, capacity, model, age), EvictedParts(entries, capacity, model, age);
    assert Compacted(entries, capacity, model, age) == Compaction(retained, evicted) by {
      CompactionShape(entries, capacity, model, age);
    }
    KeptByTier(entries, capacity, model, age, e);
    TierRoom(Salience(e, model), age(e), capacity);
  }

  lemma TierRoom(s: real, hours: real, capacity: TierCapacity)
    requires capacity.active >= 0 && capacity.working >= 0 && capacity.longTerm >= 0
    ensures var active, working := s >= 0.5 && hours < 1.0, s >= 0.3 && hours < 24.0;
            RoomFor(capacity, TierOf(s, hours)) > 0 <==>
              || (active && capacity.active > 0)
              || (working && !active && capacity.working > 0)
              || (s >= 0.2 && !working && capacity.longTerm > 0)
    ensures RoomFor(capacity, TierOf(s, hours)) >= 0
  {
  }

  /** With room for everything exactly the entries of less than two tenths salience are evicted. */
  lemma {:induction false} EvictedExactly(entries: seq<IndexEntry>, capacity: TierCapacity, model: SalienceModel,
                                          age: Clock, e: IndexEntry)
    requires DistinctIds(entries) && e in entries
    requires capacity.active >= |entries| && capacity.working >= |entries| && capacity.longTerm >= |entries|
    ensures e in Compacted(entries, capacity, model, age).evicted <==> Salience(e, model) < 0.2
  {
    RetainedExactly(entries, capacity, model, age, e);
  }

  /** Under the default weights an entry of an unknown source and type without signal terms is never kept,
      and one that records a decision in the audit log starts in the active tier. */
  lemma {:induction false} DefaultTiers(e: IndexEntry, age: Clock)
    ensures e.source !in DEFAULT_SOURCE_WEIGHTS && EventTypeOf(e) !in DEFAULT_EVENT_TYPE_WEIGHTS
            && SignalScore(DEFAULT_SIGNAL_TERMS, LowerCase(e.text)) == 0.0
            ==> ClassifyOne(e, DefaultModel(), age).tier == Archive
    ensures e.source == "audit_log" && EventTypeOf(e) == "decision" && age(e) < 1.0
            ==> ClassifyOne(e, DefaultModel(), age).tier == ActiveTier
  {
    SalienceClose(e, DefaultModel());
    SignalScoreNonNegative(DEFAULT_SIGNAL_TERMS, LowerCase(e.text));
  }
}
