/** Tier classification and compaction of indexed memories. */
module MemoryPyramid {
  import opened Rounding
  import opened Sequences
  import opened Sorting
  import opened Tfidf
  import opened Retrieval

  datatype Tier = ActiveTier | Working | LongTerm | Archive

  datatype TierCapacity = TierCapacity(active: int, working: int, longTerm: int)

  datatype TierDecision = TierDecision(docId: string, tier: Tier, salience: real, ageHours: real)

  /** Entry age in hours at the moment of the call. */
  type Clock = IndexEntry -> real

  function TierOf(salience: real, ageHours: real): Tier {
    if salience >= 0.5 && ageHours < 1.0 then ActiveTier
    else if salience >= 0.3 && ageHours < 24.0 then Working
    else if salience >= 0.2 then LongTerm
    else Archive
  }

  /** The tier is decided by the exact age; the decision records it with one decimal. */
  function ClassifyOne(entry: IndexEntry, model: SalienceModel, age: Clock): TierDecision {
    var salience := Salience(entry, model);
    TierDecision(entry.docId, TierOf(salience, age(entry)), salience, Quantize(age(entry), 10.0))
  }

  function ClassifyAll(entries: seq<IndexEntry>, model: SalienceModel, age: Clock): (ds: seq<TierDecision>)
    ensures |ds| == |entries| && forall i | 0 <= i < |ds| :: ds[i] == ClassifyOne(entries[i], model, age)
  {
    seq(|entries|, i requires 0 <= i < |entries| => ClassifyOne(entries[i], model, age))
  }

  /** Salience first, the most salient leading; newer first among equals. */
  function KeyOf(entry: IndexEntry, d: TierDecision): Keyed<IndexEntry> {
    Keyed(-d.salience, d.ageHours, entry)
  }

  /** The entries decided for a tier, in order. */
  function Bucket(entries: seq<IndexEntry>, tier: Tier, model: SalienceModel, age: Clock): seq<Keyed<IndexEntry>> {
    if entries == [] then []
    else
      var d := ClassifyOne(entries[0], model, age);
      var rest := Bucket(entries[1..], tier, model, age);
      if d.tier == tier then [KeyOf(entries[0], d)] + rest else rest
  }

  function Items(s: seq<Keyed<IndexEntry>>): (r: seq<IndexEntry>)
    ensures |r| == |s| && forall i | 0 <= i < |r| :: r[i] == s[i].item
  {
    seq(|s|, i requires 0 <= i < |s| => s[i].item)
  }

  /** The decision filed last under a document id. */
  function LastDecision(ds: seq<TierDecision>, docId: string): Option<TierDecision> {
    if ds == [] then None
    else if ds[|ds| - 1].docId == docId then Some(ds[|ds| - 1])
    else LastDecision(ds[..|ds| - 1], docId)
  }

  predicate FiledIn(ds: seq<TierDecision>, e: IndexEntry, tier: Tier) {
    var d := LastDecision(ds, e.docId);
    d.Some? && d.value.tier == tier
  }

  function CountIn(retained: seq<IndexEntry>, ds: seq<TierDecision>, tier: Tier): nat {
    if retained == [] then 0
    else (if FiledIn(ds, retained[0], tier) then 1 else 0) + CountIn(retained[1..], ds, tier)
  }

  datatype Compaction = Compaction(retained: seq<IndexEntry>, evicted: seq<IndexEntry>)

  /** Keeps the first of a sorted tier that still fit; a tier without room is evicted whole. */
  function Fill(c: Compaction, tier: seq<Keyed<IndexEntry>>, room: int): Compaction {
    if room > 0 then Compaction(c.retained + Items(Take(tier, room)), c.evicted + Items(Drop(tier, room)))
    else Compaction(c.retained, c.evicted + Items(tier))
  }

  function Compacted(entries: seq<IndexEntry>, capacity: TierCapacity, model: SalienceModel, age: Clock): Compaction {
    var ds := ClassifyAll(entries, model, age);
    var active := Sort(Bucket(entries, ActiveTier, model, age));
    var one := Compaction(Items(Take(active, capacity.active)), Items(Drop(active, capacity.active)));
    var two := Fill(one, Sort(Bucket(entries, Working, model, age)),
        capacity.working - CountIn(one.retained, ds, Working));
    var three := Fill(two, Sort(Bucket(entries, LongTerm, model, age)),
        capacity.longTerm - CountIn(two.retained, ds, LongTerm));
    Compaction(three.retained, three.evicted + Items(Sort(Bucket(entries, Archive, model, age))))
  }

  /** What each bucket holds, followed by the tier's share of the rest, is the tier's share of all. */
  ghost predicate Distributing(buckets: map<Tier, seq<Keyed<IndexEntry>>>, rest: seq<IndexEntry>, all: seq<IndexEntry>,
                               model: SalienceModel, age: Clock)
  {
    && buckets.Keys == {ActiveTier, Working, LongTerm, Archive}
    && forall t | t in buckets :: buckets[t] + Bucket(rest, t, model, age) == Bucket(all, t, model, age)
  }

  lemma DistributeStep(buckets: map<Tier, seq<Keyed<IndexEntry>>>, rest: seq<IndexEntry>, all: seq<IndexEntry>,
                       model: SalienceModel, age: Clock)
    requires rest != [] && Distributing(buckets, rest, all, model, age)
    ensures var d := ClassifyOne(rest[0], model, age);
            && d.tier in buckets
            && Distributing(buckets[d.tier := buckets[d.tier] + [KeyOf(rest[0], d)]], rest[1..], all, model, age)
  {
    var d := ClassifyOne(rest[0], model, age);
    var key, own, tail := KeyOf(rest[0], d), buckets[d.tier], Bucket(rest[1..], d.tier, model, age);
    assert Bucket(rest, d.tier, model, age) == [key] + tail;
    assert own + ([key] + tail) == own + [key] + tail;
  }

  class MemoryPyramid {
    const capacity: TierCapacity
    const model: SalienceModel

    constructor (c: TierCapacity, sources: Weights, eventTypes: Weights, signals: Dict<string, real>)
      ensures capacity == c && model == ModelOr(sources, eventTypes, signals)
    {
      capacity := c;
      model := ModelOr(sources, eventTypes, signals);
    }

    method Compact(entries: seq<IndexEntry>, age: Clock) returns (retained: seq<IndexEntry>, evicted: seq<IndexEntry>)
      ensures Compaction(retained, evicted) == Compacted(entries, capacity, model, age)
    {
      var decisions := ClassifyAll(entries, model, age);
      var buckets := Distribute(entries, decisions, age);
      buckets := map t | t in buckets :: Sort(buckets[t]);

      retained := Items(Take(buckets[ActiveTier], capacity.active));
      evicted := Items(Drop(buckets[ActiveTier], capacity.active));

      var bucket := buckets[Working];
      var remaining := capacity.working - CountIn(retained, decisions, Working);
      retained, evicted := FillTier(retained, evicted, bucket, remaining);

      bucket := buckets[LongTerm];
      remaining := capacity.longTerm - CountIn(retained, decisions, LongTerm);
      retained, evicted := FillTier(retained, evicted, bucket, remaining);

      evicted := evicted + Items(buckets[Archive]);
    }

    method Distribute(entries: seq<IndexEntry>, decisions: seq<TierDecision>, ghost age: Clock)
      returns (buckets: map<Tier, seq<Keyed<IndexEntry>>>)
      requires decisions == ClassifyAll(entries, model, age)
      ensures buckets.Keys == {ActiveTier, Working, LongTerm, Archive}
      ensures forall t | t in buckets :: buckets[t] == Bucket(entries, t, model, age)
    {
      buckets := map[ActiveTier := [], Working := [], LongTerm := [], Archive := []];
      assert entries[0..] == entries;
      for i := 0 to |entries|
        invariant Distributing(buckets, entries[i..], entries, model, age)
      {
        DistributeStep(buckets, entries[i..], entries, model, age);
        assert entries[i..][0] == entries[i] && entries[i..][1..] == entries[i + 1..];
        var tier, key := decisions[i].tier, KeyOf(entries[i], decisions[i]);
        buckets := buckets[tier := buckets[tier] + [key]];
      }
      forall t | t in buckets ensures buckets[t] == Bucket(entries, t, model, age) {
        assert buckets[t] + [] == buckets[t];
      }
    }

    static method FillTier(kept: seq<IndexEntry>, dropped: seq<IndexEntry>, bucket: seq<Keyed<IndexEntry>>,
            remaining: int)
      returns (retained: seq<IndexEntry>, evicted: seq<IndexEntry>)
      ensures Compaction(retained, evicted) == Fill(Compaction(kept, dropped), bucket, remaining)
    {
      retained, evicted := kept, dropped;
      if remaining > 0 {
        retained := retained + Items(Take(bucket, remaining));
        evicted := evicted + Items(Drop(bucket, remaining));
      } else {
        evicted := evicted + Items(bucket);
      }
    }

    method TierCounts(decisions: seq<TierDecision>) returns (counts: map<Tier, nat>)
      ensures counts.Keys == {ActiveTier, Working, LongTerm, Archive}
      ensures forall t | t in counts :: counts[t] == CountTier(decisions, t)
    {
      counts := map[ActiveTier := 0, Working := 0, LongTerm := 0, Archive := 0];
      for i := 0 to |decisions|
        invariant counts.Keys == {ActiveTier, Working, LongTerm, Archive}
        invariant forall t | t in counts :: counts[t] == CountTier(decisions[..i], t)
      {
        assert decisions[..i + 1][..i] == decisions[..i];
        var tier := decisions[i].tier;
        assert tier == ActiveTier || tier == Working || tier == LongTerm || tier == Archive;
        counts := counts[tier := (if tier in counts then counts[tier] else 0) + 1];
      }
      assert decisions[..|decisions|] == decisions;
    }
  }

  function CountTier(ds: seq<TierDecision>, tier: Tier): nat {
    if ds == [] then 0 else CountTier(ds[..|ds| - 1], tier) + if ds[|ds| - 1].tier == tier then 1 else 0
  }

  /** Every decision is counted in exactly one tier. */
  lemma {:induction false} CountsAddUp(ds: seq<TierDecision>)
    ensures CountTier(ds, ActiveTier) + CountTier(ds, Working) + CountTier(ds, LongTerm) + CountTier(ds, Archive)
         == |ds|
  {
    if ds != [] {
      CountsAddUp(ds[..|ds| - 1]);
    }
  }

  // ----- Nothing is lost and nothing is invented

  lemma {:induction false} ItemsMultiset(a: seq<Keyed<IndexEntry>>, b: seq<Keyed<IndexEntry>>)
    requires multiset(a) == multiset(b)
    ensures multiset(Items(a)) == multiset(Items(b))
    decreases |a|
  {
    if a == [] {
      assert |multiset(b)| == 0;
    } else {
      var i := SameElementElsewhere(a, b);
      ItemsMultiset(a[1..], b[..i] + b[i + 1..]);
      assert Items(a) == [a[0].item] + Items(a[1..]);
      assert Items(b[..i] + b[i + 1..]) == Items(b)[..i] + Items(b)[i + 1..];
      MultisetWithout(Items(b), i);
    }
  }

  function BucketItems(entries: seq<IndexEntry>, tier: Tier, model: SalienceModel, age: Clock): multiset<IndexEntry> {
    multiset(Items(Bucket(entries, tier, model, age)))
  }

  lemma BucketStep(entries: seq<IndexEntry>, tier: Tier, model: SalienceModel, age: Clock)
    requires entries != []
    ensures BucketItems(entries, tier, model, age)
         == (if ClassifyOne(entries[0], model, age).tier == tier then multiset{entries[0]} else multiset{})
          + BucketItems(entries[1..], tier, model, age)
  {
    var rest := Bucket(entries[1..], tier, model, age);
    var d := ClassifyOne(entries[0], model, age);
    if d.tier == tier {
      assert Items([KeyOf(entries[0], d)] + rest) == [entries[0]] + Items(rest);
    }
  }

  lemma {:induction false} BucketsPartition(entries: seq<IndexEntry>, model: SalienceModel, age: Clock)
    ensures multiset(entries) == BucketItems(entries, ActiveTier, model, age)
         + BucketItems(entries, Working, model, age)
                               + BucketItems(entries, LongTerm, model, age) + BucketItems(entries, Archive, model, age)
  {
    if entries != [] {
      BucketsPartition(entries[1..], model, age);
      assert entries == [entries[0]] + entries[1..];
      BucketStep(entries, ActiveTier, model, age);
      BucketStep(entries, Working, model, age);
      BucketStep(entries, LongTerm, model, age);
      BucketStep(entries, Archive, model, age);
    }
  }

  lemma ItemsConcat(a: seq<Keyed<IndexEntry>>, b: seq<Keyed<IndexEntry>>)
    ensures Items(a + b) == Items(a) + Items(b)
  {
  }

  lemma SplitMultiset(s: seq<Keyed<IndexEntry>>, k: int)
    ensures multiset(Items(s)) == multiset(Items(Take(s, k))) + multiset(Items(Drop(s, k)))
  {
    ItemsConcat(Take(s, k), Drop(s, k));
  }

  function AllOf(c: Compaction): multiset<IndexEntry> {
    multiset(c.retained) + multiset(c.evicted)
  }

  lemma FillConserves(c: Compaction, tier: seq<Keyed<IndexEntry>>, room: int)
    ensures AllOf(Fill(c, tier, room)) == AllOf(c) + multiset(Items(tier))
  {
    SplitMultiset(tier, room);
  }

  lemma StagesConserve(a: seq<Keyed<IndexEntry>>, w: seq<Keyed<IndexEntry>>, l: seq<Keyed<IndexEntry>>,
                       r: seq<Keyed<IndexEntry>>, roomA: int, roomW: int, roomL: int)
    ensures var one := Compaction(Items(Take(a, roomA)), Items(Drop(a, roomA)));
            var three := Fill(Fill(one, w, roomW), l, roomL);
            AllOf(Compaction(three.retained, three.evicted + Items(r)))
            == multiset(Items(a)) + multiset(Items(w)) + multiset(Items(l)) + multiset(Items(r))
  {
    var one := Compaction(Items(Take(a, roomA)), Items(Drop(a, roomA)));
    SplitMultiset(a, roomA);
    FillConserves(one, w, roomW);
    FillConserves(Fill(one, w, roomW), l, roomL);
  }

  /** Retained and evicted partition the input as multisets, for every capacity and whatever the ids. */
  lemma {:induction false} CompactionPartitions(entries: seq<IndexEntry>, capacity: TierCapacity,
          model: SalienceModel, age: Clock)
    ensures AllOf(Compacted(entries, capacity, model, age)) == multiset(entries)
  {
    var ds := ClassifyAll(entries, model, age);
    var a, w := Bucket(entries, ActiveTier, model, age), Bucket(entries, Working, model, age);
    var l, r := Bucket(entries, LongTerm, model, age), Bucket(entries, Archive, model, age);
    SortedItems(a);
    SortedItems(w);
    SortedItems(l);
    SortedItems(r);
    BucketsPartition(entries, model, age);
    var one := Compaction(Items(Take(Sort(a), capacity.active)), Items(Drop(Sort(a), capacity.active)));
    var roomW := capacity.working - CountIn(one.retained, ds, Working);
    var two := Fill(one, Sort(w), roomW);
    StagesConserve(Sort(a), Sort(w), Sort(l), Sort(r), capacity.active, roomW,
        capacity.longTerm - CountIn(two.retained, ds, LongTerm));
  }

  lemma SortedItems(s: seq<Keyed<IndexEntry>>)
    ensures multiset(Items(Sort(s))) == multiset(Items(s)) && |Sort(s)| == |s|
  {
    SortCorrect(s);
    ItemsMultiset(Sort(s), s);
  }

  // ----- Exact sizes

  ghost predicate DistinctIds(entries: seq<IndexEntry>) {
    forall i, j :: 0 <= i < j < |entries| ==> entries[i].docId != entries[j].docId
  }

  lemma {:induction false} LastDecisionIsOwn(entries: seq<IndexEntry>, model: SalienceModel, age: Clock, i: nat)
    requires DistinctIds(entries) && i < |entries|
    ensures LastDecision(ClassifyAll(entries, model, age), entries[i].docId)
         == Some(ClassifyOne(entries[i], model, age))
    decreases |entries|
  {
    var n := |entries| - 1;
    if i < n {
      LastDecisionIsOwn(entries[..n], model, age, i);
      assert ClassifyAll(entries, model, age)[..n] == ClassifyAll(entries[..n], model, age);
    }
  }

  lemma {:induction false} CountInOther(retained: seq<IndexEntry>, entries: seq<IndexEntry>, tier: Tier,
          model: SalienceModel, age: Clock)
    requires DistinctIds(entries)
    requires forall e | e in retained :: e in entries && ClassifyOne(e, model, age).tier != tier
    ensures CountIn(retained, ClassifyAll(entries, model, age), tier) == 0
  {
    if retained != [] {
      assert retained[0] in entries;
      var i :| 0 <= i < |entries| && entries[i] == retained[0];
      LastDecisionIsOwn(entries, model, age, i);
      CountInOther(retained[1..], entries, tier, model, age);
    }
  }

  lemma {:induction false} BucketMembers(entries: seq<IndexEntry>, tier: Tier, model: SalienceModel, age: Clock)
    ensures forall i | 0 <= i < |Bucket(entries, tier, model, age)| ::
              var k := Bucket(entries, tier, model, age)[i];
              k.item in entries && ClassifyOne(k.item, model, age).tier == tier
                  && k == KeyOf(k.item, ClassifyOne(k.item, model, age))
  {
    if entries != [] {
      BucketMembers(entries[1..], tier, model, age);
    }
  }

  /** The entries of one tier, sorted as compaction sorts them. */
  function Ranked(entries: seq<IndexEntry>, tier: Tier, model: SalienceModel, age: Clock): seq<Keyed<IndexEntry>> {
    Sort(Bucket(entries, tier, model, age))
  }

  lemma RankedMembers(entries: seq<IndexEntry>, tier: Tier, model: SalienceModel, age: Clock)
    ensures Sorted(Ranked(entries, tier, model, age))
    ensures |Ranked(entries, tier, model, age)| == |Bucket(entries, tier, model, age)|
    ensures forall k | k in Ranked(entries, tier, model, age) ::
              k.item in entries && ClassifyOne(k.item, model, age).tier == tier
                  && k == KeyOf(k.item, ClassifyOne(k.item, model, age))
  {
    var bucket := Bucket(entries, tier, model, age);
    SortCorrect(bucket);
    BucketMembers(entries, tier, model, age);
    forall k | k in Sort(bucket)
      ensures k.item in entries && ClassifyOne(k.item, model, age).tier == tier
           && k == KeyOf(k.item, ClassifyOne(k.item, model, age))
    {
      assert k in multiset(bucket);
      var i :| 0 <= i < |bucket| && bucket[i] == k;
    }
  }

  /** The entries of a tier that compaction keeps: as many of its best as fit. */
  function KeptOf(entries: seq<IndexEntry>, tier: Tier, room: int, model: SalienceModel,
          age: Clock): seq<Keyed<IndexEntry>> {
    Take(Ranked(entries, tier, model, age), room)
  }

  function DroppedOf(entries: seq<IndexEntry>, tier: Tier, room: int, model: SalienceModel,
          age: Clock): seq<Keyed<IndexEntry>> {
    Drop(Ranked(entries, tier, model, age), room)
  }

  predicate NonNegative(c: TierCapacity) {
    c.active >= 0 && c.working >= 0 && c.longTerm >= 0
  }

  lemma KeptInTier(entries: seq<IndexEntry>, tier: Tier, room: int, model: SalienceModel, age: Clock)
    ensures forall e | e in Items(KeptOf(entries, tier, room, model, age)) ::
         e in entries && ClassifyOne(e, model, age).tier == tier
  {
    RankedMembers(entries, tier, model, age);
    var kept := KeptOf(entries, tier, room, model, age);
    forall e | e in Items(kept) ensures e in entries && ClassifyOne(e, model, age).tier == tier {
      var i :| 0 <= i < |kept| && Items(kept)[i] == e;
      assert kept[i] in Ranked(entries, tier, model, age);
    }
  }

  /** The best of each tier that fit, tier by tier. */
  function RetainedParts(entries: seq<IndexEntry>, capacity: TierCapacity, model: SalienceModel, age: Clock)
    : seq<IndexEntry>
  {
    Items(KeptOf(entries, ActiveTier, capacity.active, model, age))
    + Items(KeptOf(entries, Working, capacity.working, model, age))
    + Items(KeptOf(entries, LongTerm, capacity.longTerm, model, age))
  }

  /** The rest of each tier, and the whole archive. */
  function EvictedParts(entries: seq<IndexEntry>, capacity: TierCapacity, model: SalienceModel, age: Clock)
    : seq<IndexEntry>
  {
    Items(DroppedOf(entries, ActiveTier, capacity.active, model, age))
    + Items(DroppedOf(entries, Working, capacity.working, model, age))
    + Items(DroppedOf(entries, LongTerm, capacity.longTerm, model, age))
    + Items(Ranked(entries, Archive, model, age))
  }

  /** With distinct ids and capacities that are not negative, compaction keeps of each tier the best that
      fit, and nothing from the archive: exactly min(capacity, bucket size) of each. */
  lemma {:induction false} CompactionShape(entries: seq<IndexEntry>, capacity: TierCapacity,
          model: SalienceModel, age: Clock)
    requires DistinctIds(entries) && NonNegative(capacity)
    ensures Compacted(entries, capacity, model, age)
         == Compaction(RetainedParts(entries, capacity, model, age), EvictedParts(entries, capacity, model, age))
  {
    var ds := ClassifyAll(entries, model, age);
    var a := Items(KeptOf(entries, ActiveTier, capacity.active, model, age));
    var w := Items(KeptOf(entries, Working, capacity.working, model, age));
    KeptInTier(entries, ActiveTier, capacity.active, model, age);
    KeptInTier(entries, Working, capacity.working, model, age);
    CountInOther(a, entries, Working, model, age);
    CountInOther(a + w, entries, LongTerm, model, age);
    var one := Compaction(a, Items(DroppedOf(entries, ActiveTier, capacity.active, model, age)));
    FillWithRoom(one, Ranked(entries, Working, model, age), capacity.working);
    var two := Fill(one, Ranked(entries, Working, model, age), capacity.working);
    FillWithRoom(two, Ranked(entries, LongTerm, model, age), capacity.longTerm);
  }

  lemma FillWithRoom(c: Compaction, tier: seq<Keyed<IndexEntry>>, room: nat)
    ensures Fill(c, tier, room) == Compaction(c.retained + Items(Take(tier, room)), c.evicted + Items(Drop(tier, room)))
  {
    if room == 0 {
      assert c.retained + Items(Take(tier, 0)) == c.retained;
      assert Drop(tier, 0) == tier;
    }
  }

  /** Of two entries of a tier a retained one is more salient than an evicted one or, when equally salient,
      not older by the rounded age. */
  lemma {:induction false} BestKept(entries: seq<IndexEntry>, capacity: TierCapacity, model: SalienceModel, age: Clock,
                                    r: IndexEntry, d: IndexEntry)
    requires DistinctIds(entries) && NonNegative(capacity)
    ensures var c := Compacted(entries, capacity, model, age);
            var rd, dd := ClassifyOne(r, model, age), ClassifyOne(d, model, age);
            r in c.retained && d in c.evicted && rd.tier == dd.tier ==>
              rd.salience > dd.salience || (rd.salience == dd.salience && rd.ageHours <= dd.ageHours)
  {
    CompactionShape(entries, capacity, model, age);
    BestOfParts(entries, capacity, model, age, r, d);
  }

  /** Among equally salient entries of a tier a kept one is at most a tenth of an hour older than an evicted
      one, and older at all only when their ages round to the same tenth. */
  lemma {:induction false} NewerKept(entries: seq<IndexEntry>, capacity: TierCapacity, model: SalienceModel, age: Clock,
                                     r: IndexEntry, d: IndexEntry)
    requires DistinctIds(entries) && NonNegative(capacity)
    ensures var c := Compacted(entries, capacity, model, age);
            var rd, dd := ClassifyOne(r, model, age), ClassifyOne(d, model, age);
            && r in c.retained && d in c.evicted
            && rd.tier == dd.tier && rd.salience == dd.salience
            ==> age(r) <= age(d) + 0.1 && (age(r) > age(d) ==> rd.ageHours == dd.ageHours)
  {
    BestKept(entries, capacity, model, age, r, d);
    TenthsApart(age(r), age(d));
  }

  lemma TenthsApart(a: real, b: real)
    ensures Quantize(a, 10.0) <= Quantize(b, 10.0) ==> a <= b + 0.1
    ensures a > b ==> Quantize(a, 10.0) >= Quantize(b, 10.0)
  {
    QuantizeError(a, 10.0);
    QuantizeError(b, 10.0);
    if a > b {
      QuantizeMonotone(b, a, 10.0);
    }
  }

  /** Same tier, same salience, same rounded age. */
  predicate Tied(e: IndexEntry, f: IndexEntry, model: SalienceModel, age: Clock) {
    var ed, fd := ClassifyOne(e, model, age), ClassifyOne(f, model, age);
    ed.tier == fd.tier && ed.salience == fd.salience && ed.ageHours == fd.ageHours
  }

  /** Where salience and rounded age tie, the entry listed first is kept, whichever is newer. */
  lemma {:induction false} FirstListedKept(e: IndexEntry, f: IndexEntry, capacity: TierCapacity, model: SalienceModel,
                                           age: Clock)
    requires e.docId != f.docId && NonNegative(capacity)
    requires Tied(e, f, model, age) && RoomFor(capacity, ClassifyOne(e, model, age).tier) == 1
    ensures Compacted([e, f], capacity, model, age) == Compaction([e], [f])
  {
    PartsOfTwo(e, f, capacity, model, age);
    CompactionShape([e, f], capacity, model, age);
  }

  lemma PartsOfTwo(e: IndexEntry, f: IndexEntry, capacity: TierCapacity, model: SalienceModel, age: Clock)
    requires Tied(e, f, model, age) && RoomFor(capacity, ClassifyOne(e, model, age).tier) == 1
    ensures RetainedParts([e, f], capacity, model, age) == [e] && EvictedParts([e, f], capacity, model, age) == [f]
  {
    var pair, tier := [e, f], ClassifyOne(e, model, age).tier;
    CutOfTwo(e, f, ActiveTier, capacity.active, model, age);
    CutOfTwo(e, f, Working, capacity.working, model, age);
    CutOfTwo(e, f, LongTerm, capacity.longTerm, model, age);
    CutOfTwo(e, f, Archive, 0, model, age);
    OnlyTier(pair, capacity, model, age, tier, [e], [f]);
  }

  lemma CutOfTwo(e: IndexEntry, f: IndexEntry, tier: Tier, room: int, model: SalienceModel, age: Clock)
    requires Tied(e, f, model, age) && (ClassifyOne(e, model, age).tier == tier ==> room == 1)
    ensures CutTo([e, f], tier, room, model, age, ClassifyOne(e, model, age).tier, [e], [f])
  {
    TwoRanked(e, f, tier, model, age);
  }

  /** What is kept and dropped of a tier, if all entries are in the tier `home`. */
  predicate CutTo(entries: seq<IndexEntry>, tier: Tier, room: int, model: SalienceModel, age: Clock,
                  home: Tier, kept: seq<IndexEntry>, dropped: seq<IndexEntry>) {
    && Items(KeptOf(entries, tier, room, model, age)) == (if tier == home then kept else [])
    && Items(DroppedOf(entries, tier, room, model, age)) == (if tier == home then dropped else [])
  }

  lemma OnlyTier(entries: seq<IndexEntry>, capacity: TierCapacity, model: SalienceModel, age: Clock,
                 home: Tier, kept: seq<IndexEntry>, dropped: seq<IndexEntry>)
    requires home != Archive
    requires CutTo(entries, ActiveTier, capacity.active, model, age, home, kept, dropped)
    requires CutTo(entries, Working, capacity.working, model, age, home, kept, dropped)
    requires CutTo(entries, LongTerm, capacity.longTerm, model, age, home, kept, dropped)
    requires CutTo(entries, Archive, 0, model, age, home, kept, dropped)
    ensures RetainedParts(entries, capacity, model, age) == kept
    ensures EvictedParts(entries, capacity, model, age) == dropped
  {
    assert DroppedOf(entries, Archive, 0, model, age) == Ranked(entries, Archive, model, age);
    var archive := Items(Ranked(entries, Archive, model, age));
    OnlyPart(home, Items(KeptOf(entries, ActiveTier, capacity.active, model, age)),
        Items(KeptOf(entries, Working, capacity.working, model, age)),
        Items(KeptOf(entries, LongTerm, capacity.longTerm, model, age)), [], kept);
    OnlyPart(home, Items(DroppedOf(entries, ActiveTier, capacity.active, model, age)),
        Items(DroppedOf(entries, Working, capacity.working, model, age)),
        Items(DroppedOf(entries, LongTerm, capacity.longTerm, model, age)), archive, dropped);
  }

  lemma OnlyPart<T>(home: Tier, a: seq<T>, w: seq<T>, l: seq<T>, rest: seq<T>, s: seq<T>)
    requires home != Archive && rest == []
    requires a == if home == ActiveTier then s else []
    requires w == if home == Working then s else []
    requires l == if home == LongTerm then s else []
    ensures a + w + l == s && a + w + l + rest == s
  {
  }

  lemma TwoRanked(e: IndexEntry, f: IndexEntry, tier: Tier, model: SalienceModel, age: Clock)
    requires Tied(e, f, model, age)
    ensures var ed, fd := ClassifyOne(e, model, age), ClassifyOne(f, model, age);
            Ranked([e, f], tier, model, age) == if ed.tier == tier then [KeyOf(e, ed), KeyOf(f, fd)] else []
  {
    assert [e, f][1..] == [f] && [f][1..] == [];
    assert Bucket([f], tier, model, age)
        == if ClassifyOne(f, model, age).tier == tier then [KeyOf(f, ClassifyOne(f, model, age))] else [];
    SortIdentity(Bucket([e, f], tier, model, age));
  }

  lemma BestOfParts(entries: seq<IndexEntry>, capacity: TierCapacity, model: SalienceModel, age: Clock,
                    r: IndexEntry, d: IndexEntry)
    ensures var rd, dd := ClassifyOne(r, model, age), ClassifyOne(d, model, age);
            && r in RetainedParts(entries, capacity, model, age)
            && d in EvictedParts(entries, capacity, model, age)
            && rd.tier == dd.tier
            ==> KeyOf(r, rd).AtMost(KeyOf(d, dd))
  {
    var tier := ClassifyOne(r, model, age).tier;
    RetainedFromTier(entries, capacity, model, age, r);
    EvictedFromTier(entries, capacity, model, age, d);
    if r in RetainedParts(entries, capacity, model, age) && d in EvictedParts(entries, capacity, model, age)
       && ClassifyOne(d, model, age).tier == tier {
      KeptBeforeDropped(entries, tier, RoomFor(capacity, tier), model, age, r, d);
    }
  }

  lemma KeptBeforeDropped(entries: seq<IndexEntry>, tier: Tier, room: int, model: SalienceModel, age: Clock,
                          r: IndexEntry, d: IndexEntry)
    requires r in Items(KeptOf(entries, tier, room, model, age))
    requires d in Items(DroppedOf(entries, tier, room, model, age))
    ensures KeyOf(r, ClassifyOne(r, model, age)).AtMost(KeyOf(d, ClassifyOne(d, model, age)))
  {
    var kept, dropped := KeptOf(entries, tier, room, model, age), DroppedOf(entries, tier, room, model, age);
    var i :| 0 <= i < |kept| && Items(kept)[i] == r;
    var j :| 0 <= j < |dropped| && Items(dropped)[j] == d;
    RankedMembers(entries, tier, model, age);
    assert kept[i] in Ranked(entries, tier, model, age) && dropped[j] in Ranked(entries, tier, model, age);
    CutSorted(Ranked(entries, tier, model, age), room, i, j);
  }

  /** The archive has no room. */
  function RoomFor(c: TierCapacity, tier: Tier): int {
    match tier
    case ActiveTier => c.active
    case Working => c.working
    case LongTerm => c.longTerm
    case Archive => 0
  }

  lemma RetainedFromTier(entries: seq<IndexEntry>, capacity: TierCapacity, model: SalienceModel, age: Clock,
                         r: IndexEntry)
    ensures r in RetainedParts(entries, capacity, model, age) ==>
              var tier := ClassifyOne(r, model, age).tier;
              r in Items(KeptOf(entries, tier, RoomFor(capacity, tier), model, age))
  {
    KeptInTier(entries, ActiveTier, capacity.active, model, age);
    KeptInTier(entries, Working, capacity.working, model, age);
    KeptInTier(entries, LongTerm, capacity.longTerm, model, age);
  }

  lemma DroppedInTier(entries: seq<IndexEntry>, tier: Tier, room: int, model: SalienceModel, age: Clock)
    ensures forall e | e in Items(DroppedOf(entries, tier, room, model, age)) ::
         e in entries && ClassifyOne(e, model, age).tier == tier
  {
    RankedMembers(entries, tier, model, age);
    var dropped := DroppedOf(entries, tier, room, model, age);
    forall e | e in Items(dropped) ensures e in entries && ClassifyOne(e, model, age).tier == tier {
      var i :| 0 <= i < |dropped| && Items(dropped)[i] == e;
      assert dropped[i] in Ranked(entries, tier, model, age);
    }
  }

  lemma EvictedFromTier(entries: seq<IndexEntry>, capacity: TierCapacity, model: SalienceModel, age: Clock,
                        d: IndexEntry)
    ensures d in EvictedParts(entries, capacity, model, age) ==>
              var tier := ClassifyOne(d, model, age).tier;
              d in Items(DroppedOf(entries, tier, RoomFor(capacity, tier), model, age))
  {
    DroppedInTier(entries, ActiveTier, capacity.active, model, age);
    DroppedInTier(entries, Working, capacity.working, model, age);
    DroppedInTier(entries, LongTerm, capacity.longTerm, model, age);
    DroppedInTier(entries, Archive, 0, model, age);
    assert DroppedOf(entries, Archive, 0, model, age) == Ranked(entries, Archive, model, age);
  }

  lemma CutSorted(ranked: seq<Keyed<IndexEntry>>, room: int, i: nat, j: nat)
    requires Sorted(ranked) && i < |Take(ranked, room)| && j < |Drop(ranked, room)|
    ensures Take(ranked, room)[i].AtMost(Drop(ranked, room)[j])
  {
    assert ranked[i] == Take(ranked, room)[i];
    assert ranked[|Take(ranked, room)| + j] == Drop(ranked, room)[j];
  }

  // ----- Compacting twice

  lemma {:induction false} BucketConcat(a: seq<IndexEntry>, b: seq<IndexEntry>, tier: Tier,
          model: SalienceModel, age: Clock)
    ensures Bucket(a + b, tier, model, age) == Bucket(a, tier, model, age) + Bucket(b, tier, model, age)
  {
    if a == [] {
      assert a + b == b;
    } else {
      assert (a + b)[0] == a[0] && (a + b)[1..] == a[1..] + b;
      BucketConcat(a[1..], b, tier, model, age);
    }
  }

  /** Re-classifying entries that were decided for one tier gives back the tier's list, or nothing. */
  lemma {:induction false} BucketOfKept(kept: seq<Keyed<IndexEntry>>, own: Tier, tier: Tier,
          model: SalienceModel, age: Clock)
    requires forall k | k in kept ::
               ClassifyOne(k.item, model, age).tier == own && k == KeyOf(k.item, ClassifyOne(k.item, model, age))
    ensures Bucket(Items(kept), tier, model, age) == if tier == own then kept else []
  {
    if kept != [] {
      assert Items(kept)[0] == kept[0].item && Items(kept)[1..] == Items(kept[1..]);
      BucketOfKept(kept[1..], own, tier, model, age);
    }
  }

  lemma KeptReclassified(entries: seq<IndexEntry>, own: Tier, room: int, tier: Tier, model: SalienceModel, age: Clock)
    ensures Bucket(Items(KeptOf(entries, own, room, model, age)), tier, model, age)
         == if tier == own then KeptOf(entries, own, room, model, age) else []
  {
    RankedMembers(entries, own, model, age);
    var kept := KeptOf(entries, own, room, model, age);
    forall k | k in kept ensures k in Ranked(entries, own, model, age) {
    }
    BucketOfKept(kept, own, tier, model, age);
  }

  lemma ThreeBuckets(a: seq<IndexEntry>, b: seq<IndexEntry>, c: seq<IndexEntry>, tier: Tier,
          model: SalienceModel, age: Clock)
    ensures Bucket(a + b + c, tier, model, age)
         == Bucket(a, tier, model, age) + Bucket(b, tier, model, age) + Bucket(c, tier, model, age)
  {
    BucketConcat(a + b, c, tier, model, age);
    BucketConcat(a, b, tier, model, age);
  }

  lemma BucketOfRetained(entries: seq<IndexEntry>, c: TierCapacity, tier: Tier, model: SalienceModel, age: Clock)
    ensures var a := KeptOf(entries, ActiveTier, c.active, model, age);
            var w := KeptOf(entries, Working, c.working, model, age);
            var l := KeptOf(entries, LongTerm, c.longTerm, model, age);
            Bucket(Items(a) + Items(w) + Items(l), tier, model, age)
            == if tier == ActiveTier then a else if tier == Working then w else if tier == LongTerm then l else []
  {
    var a := KeptOf(entries, ActiveTier, c.active, model, age);
    var w := KeptOf(entries, Working, c.working, model, age);
    var l := KeptOf(entries, LongTerm, c.longTerm, model, age);
    ThreeBuckets(Items(a), Items(w), Items(l), tier, model, age);
    KeptReclassified(entries, ActiveTier, c.active, tier, model, age);
    KeptReclassified(entries, Working, c.working, tier, model, age);
    KeptReclassified(entries, LongTerm, c.longTerm, tier, model, age);
  }

  /** Exactly min(capacity, bucket size) entries of each tier are retained, and none of the archive. */
  lemma {:induction false} TierSizes(entries: seq<IndexEntry>, capacity: TierCapacity, tier: Tier,
          model: SalienceModel, age: Clock)
    requires DistinctIds(entries) && NonNegative(capacity)
    ensures var size, room := |Bucket(entries, tier, model, age)|, RoomFor(capacity, tier);
            |Bucket(Compacted(entries, capacity, model, age).retained, tier, model, age)|
            == if room <= size then room else size
  {
    var kept := KeptOf(entries, tier, RoomFor(capacity, tier), model, age);
    assert Bucket(Compacted(entries, capacity, model, age).retained, tier, model, age) == kept by {
      CompactionShape(entries, capacity, model, age);
      BucketOfRetained(entries, capacity, tier, model, age);
    }
    assert |Ranked(entries, tier, model, age)| == |Bucket(entries, tier, model, age)| by {
      RankedMembers(entries, tier, model, age);
    }
  }

  /** A kept tier is sorted and fits: ranking and cutting it again changes nothing. */
  lemma KeptAgain(entries: seq<IndexEntry>, tier: Tier, room: nat, model: SalienceModel, age: Clock)
    ensures var kept := KeptOf(entries, tier, room, model, age);
            Take(Sort(kept), room) == kept && Drop(Sort(kept), room) == []
  {
    RankedMembers(entries, tier, model, age);
    var ranked, kept := Ranked(entries, tier, model, age), KeptOf(entries, tier, room, model, age);
    forall i, j | 0 <= i < j < |kept| ensures kept[i].AtMost(kept[j]) {
      assert kept[i] == ranked[i] && kept[j] == ranked[j];
    }
    SortIdentity(kept);
  }

  lemma RetainedDistinct(entries: seq<IndexEntry>, capacity: TierCapacity, model: SalienceModel, age: Clock)
    requires DistinctIds(entries)
    ensures DistinctIds(Compacted(entries, capacity, model, age).retained)
  {
    var c := Compacted(entries, capacity, model, age);
    CompactionPartitions(entries, capacity, model, age);
    IdsThroughMultiset(c.retained, entries);
  }

  lemma {:induction false} IdsThroughMultiset(part: seq<IndexEntry>, whole: seq<IndexEntry>)
    requires DistinctIds(whole) && multiset(part) <= multiset(whole)
    ensures DistinctIds(part)
  {
    forall i, j | 0 <= i < j < |part|
      ensures part[i].docId != part[j].docId
    {
      if part[i].docId == part[j].docId {
        assert part[i] in multiset(whole) && part[j] in multiset(whole);
        var p :| 0 <= p < |whole| && whole[p] == part[i];
        var q :| 0 <= q < |whole| && whole[q] == part[j];
        assert part[i] == part[j];
        TwiceInMultiset(part, i, j);
        OnceInMultiset(whole, p);
        assert false;
      }
    }
  }

  lemma TwiceInMultiset(s: seq<IndexEntry>, i: nat, j: nat)
    requires i < j < |s| && s[i] == s[j]
    ensures multiset(s)[s[i]] >= 2
  {
    assert s == s[..i] + [s[i]] + s[i + 1..];
    assert s[j] in s[i + 1..];
  }

  lemma OnceInMultiset(s: seq<IndexEntry>, p: nat)
    requires DistinctIds(s) && p < |s|
    ensures multiset(s)[s[p]] == 1
  {
    MultisetWithout(s, p);
    var rest := s[..p] + s[p + 1..];
    assert s[p] !in rest;
  }

  /** Compacting the retained list again returns it unchanged and evicts nothing. */
  lemma {:induction false} CompactionIdempotent(entries: seq<IndexEntry>, capacity: TierCapacity,
          model: SalienceModel, age: Clock)
    requires DistinctIds(entries) && NonNegative(capacity)
    ensures var retained := Compacted(entries, capacity, model, age).retained;
            Compacted(retained, capacity, model, age) == Compaction(retained, [])
  {
    var retained := Compacted(entries, capacity, model, age).retained;
    CompactionShape(entries, capacity, model, age);
    RetainedDistinct(entries, capacity, model, age);
    CompactionShape(retained, capacity, model, age);
    BucketOfRetained(entries, capacity, ActiveTier, model, age);
    BucketOfRetained(entries, capacity, Working, model, age);
    BucketOfRetained(entries, capacity, LongTerm, model, age);
    BucketOfRetained(entries, capacity, Archive, model, age);
    KeptAgain(entries, ActiveTier, capacity.active, model, age);
    KeptAgain(entries, Working, capacity.working, model, age);
    KeptAgain(entries, LongTerm, capacity.longTerm, model, age);
  }
}
