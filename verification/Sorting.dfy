/** Stable ascending sort by a pair of keys, as Python's list.sort performs it. */
module Sorting {

  datatype Keyed<T> = Keyed(major: real, minor: real, item: T) {
    predicate AtMost(other: Keyed<T>) {
      major < other.major || (major == other.major && minor <= other.minor)
    }

    predicate SameKey(other: Keyed<T>) {
      major == other.major && minor == other.minor
    }
  }

  ghost predicate Sorted<T>(s: seq<Keyed<T>>) {
    forall i, j :: 0 <= i < j < |s| ==> s[i].AtMost(s[j])
  }

  function Insert<T>(x: Keyed<T>, s: seq<Keyed<T>>): seq<Keyed<T>> {
    if s == [] || x.AtMost(s[0]) then [x] + s else [s[0]] + Insert(x, s[1..])
  }

  function Sort<T>(s: seq<Keyed<T>>): seq<Keyed<T>> {
    if s == [] then [] else Insert(s[0], Sort(s[1..]))
  }

  lemma {:induction false} InsertSorted<T>(x: Keyed<T>, s: seq<Keyed<T>>)
    requires Sorted(s)
    ensures Sorted(Insert(x, s)) && multiset(Insert(x, s)) == multiset{x} + multiset(s)
  {
    if s != [] && !x.AtMost(s[0]) {
      InsertSorted(x, s[1..]);
      assert s == [s[0]] + s[1..];
      var rest := Insert(x, s[1..]);
      forall j | 0 <= j < |rest|
        ensures s[0].AtMost(rest[j])
      {
        assert rest[j] in multiset(rest);
        assert rest[j] == x || rest[j] in s[1..];
      }
    }
  }

  lemma {:induction false} SortCorrect<T>(s: seq<Keyed<T>>)
    ensures Sorted(Sort(s)) && multiset(Sort(s)) == multiset(s) && |Sort(s)| == |s|
  {
    if s != [] {
      SortCorrect(s[1..]);
      InsertSorted(s[0], Sort(s[1..]));
      assert s == [s[0]] + s[1..];
    }
    assert |multiset(Sort(s))| == |Sort(s)| && |multiset(s)| == |s|;
  }

  /** Sorting leaves a sorted list as it is. */
  lemma {:induction false} SortIdentity<T>(s: seq<Keyed<T>>)
    requires Sorted(s)
    ensures Sort(s) == s
  {
    if s != [] {
      SortIdentity(s[1..]);
      assert |s| > 1 ==> s[0].AtMost(s[1]);
    }
  }

  /** The elements with x's key, in order of appearance. */
  function Ties<T>(s: seq<Keyed<T>>, x: Keyed<T>): seq<Keyed<T>> {
    if s == [] then []
    else if s[0].SameKey(x) then [s[0]] + Ties(s[1..], x)
    else Ties(s[1..], x)
  }

  lemma {:induction false} InsertStable<T>(e: Keyed<T>, s: seq<Keyed<T>>, x: Keyed<T>)
    ensures Ties(Insert(e, s), x) == (if e.SameKey(x) then [e] else []) + Ties(s, x)
  {
    if s != [] && !e.AtMost(s[0]) {
      InsertStable(e, s[1..], x);
      assert Insert(e, s)[1..] == Insert(e, s[1..]);
    } else {
      assert Insert(e, s)[1..] == s;
    }
  }

  /** Stability: elements with equal keys keep their order. */
  lemma {:induction false} SortStable<T>(s: seq<Keyed<T>>, x: Keyed<T>)
    ensures Ties(Sort(s), x) == Ties(s, x)
  {
    if s != [] {
      SortStable(s[1..], x);
      InsertStable(s[0], Sort(s[1..]), x);
    }
  }

  /** Where the first of the elements with x's key stands. */
  lemma {:induction false} FirstTie<T>(s: seq<Keyed<T>>, x: Keyed<T>) returns (i: nat)
    requires Ties(s, x) != []
    ensures i < |s| && s[i] == Ties(s, x)[0] && s[i].SameKey(x)
    ensures forall j | 0 <= j < i :: !s[j].SameKey(x)
  {
    if s[0].SameKey(x) {
      i := 0;
    } else {
      var k := FirstTie(s[1..], x);
      i := k + 1;
    }
  }

  /** Where the last of them stands. */
  lemma {:induction false} LastTie<T>(s: seq<Keyed<T>>, x: Keyed<T>) returns (i: nat)
    requires Ties(s, x) != []
    ensures i < |s| && s[i] == Ties(s, x)[|Ties(s, x)| - 1] && s[i].SameKey(x)
    ensures forall j | i < j < |s| :: !s[j].SameKey(x)
  {
    if Ties(s[1..], x) != [] {
      var k := LastTie(s[1..], x);
      i := k + 1;
    } else {
      NoTies(s[1..], x);
      i := 0;
    }
  }

  lemma {:induction false} NoTies<T>(s: seq<Keyed<T>>, x: Keyed<T>)
    ensures Ties(s, x) == [] <==> forall j | 0 <= j < |s| :: !s[j].SameKey(x)
  {
    if s != [] {
      NoTies(s[1..], x);
    }
  }

  lemma SortBounds<T>(s: seq<Keyed<T>>, j: nat)
    requires j < |s|
    ensures |Sort(s)| == |s| && Sort(s)[0].AtMost(s[j]) && s[j].AtMost(Sort(s)[|s| - 1])
  {
    SortCorrect(s);
    var sorted := Sort(s);
    assert s[j] in multiset(sorted);
    var k :| 0 <= k < |sorted| && sorted[k] == s[j];
  }

  /** A list of the same length begins with the first of the lowest elements and ends with the last of the
      highest. */
  ghost predicate EndsOf<T>(s: seq<Keyed<T>>, ranked: seq<Keyed<T>>, first: nat, last: nat) {
    && |ranked| == |s| && first < |s| && last < |s|
    && s[first] == ranked[0] && s[last] == ranked[|s| - 1]
    && (forall j {:trigger s[first].AtMost(s[j])} | 0 <= j < |s| :: s[first].AtMost(s[j]))
    && (forall j {:trigger s[j].AtMost(s[last])} | 0 <= j < |s| :: s[j].AtMost(s[last]))
    && (forall j {:trigger s[j].SameKey(s[first])} | 0 <= j < first :: !s[j].SameKey(s[first]))
    && (forall j {:trigger s[j].SameKey(s[last])} | last < j < |s| :: !s[j].SameKey(s[last]))
  }

  /** The first element of a stable sort is the first one with its key, and the last the last one. */
  lemma {:induction false} SortEnds<T>(s: seq<Keyed<T>>) returns (first: nat, last: nat)
    requires s != []
    ensures EndsOf(s, Sort(s), first, last)
  {
    forall j | 0 <= j < |s|
      ensures |Sort(s)| == |s| && Sort(s)[0].AtMost(s[j]) && s[j].AtMost(Sort(s)[|s| - 1])
    {
      SortBounds(s, j);
    }
    SortBounds(s, 0);
    first := FirstOfSort(s);
    last := LastOfSort(s);
  }

  lemma FirstOfSort<T>(s: seq<Keyed<T>>) returns (first: nat)
    requires s != [] && Sort(s) != []
    ensures first < |s| && s[first] == Sort(s)[0]
    ensures forall j | 0 <= j < first :: !s[j].SameKey(s[first])
  {
    SortStable(s, Sort(s)[0]);
    first := FirstTie(s, Sort(s)[0]);
  }

  lemma LastOfSort<T>(s: seq<Keyed<T>>) returns (last: nat)
    requires s != [] && Sort(s) != []
    ensures last < |s| && s[last] == Sort(s)[|Sort(s)| - 1]
    ensures forall j | last < j < |s| :: !s[j].SameKey(s[last])
  {
    var high := Sort(s)[|Sort(s)| - 1];
    SortStable(s, high);
    LastOfTies(Sort(s));
    last := LastTie(s, high);
  }

  lemma {:induction false} LastOfTies<T>(s: seq<Keyed<T>>)
    requires s != []
    ensures var high := s[|s| - 1]; Ties(s, high) != [] && Ties(s, high)[|Ties(s, high)| - 1] == high
  {
    if |s| > 1 {
      LastOfTies(s[1..]);
    }
  }
}
