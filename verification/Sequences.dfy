/** Python's slices, bounded deques and insertion-ordered dictionaries, on sequences. */
module Sequences {

  datatype Option<+T> = None | Some(value: T)

  predicate Distinct<T(==)>(s: seq<T>) {
    forall i, j :: 0 <= i < j < |s| ==> s[i] != s[j]
  }

  // ----- Slices

  /** Where the slice bound k falls in a sequence of length n; negative bounds count from the end. */
  function Bound(k: int, n: nat): (b: nat)
    ensures b <= n
    ensures k >= 0 ==> b == if k <= n then k else n
  {
    if k >= 0 then (if k <= n then k else n) else if n + k >= 0 then n + k else 0
  }

  /** s[:k] */
  function Take<T>(s: seq<T>, k: int): (r: seq<T>)
    ensures r <= s
    ensures k >= 0 ==> |r| == if k <= |s| then k else |s|
  {
    s[..Bound(k, |s|)]
  }

  /** s[k:] */
  function Drop<T>(s: seq<T>, k: int): (r: seq<T>)
    ensures Take(s, k) + r == s
  {
    s[Bound(k, |s|)..]
  }

  /** The last n elements, or all when there are fewer. */
  function LastN<T>(s: seq<T>, n: nat): (r: seq<T>)
    ensures |r| == if |s| <= n then |s| else n
  {
    if |s| <= n then s else s[|s| - n..]
  }

  /** Appending to a deque that keeps at most n elements. */
  function Push<T>(d: seq<T>, n: nat, x: T): (r: seq<T>)
    ensures |d| <= n ==> |r| <= n
  {
    LastN(d + [x], n)
  }

  /** A bounded deque that received a stream holds exactly the stream's last n elements. */
  lemma PushIsLastN<T>(stream: seq<T>, n: nat, x: T)
    ensures Push(LastN(stream, n), n, x) == LastN(stream + [x], n)
  {
  }

  // ----- Dictionaries that remember insertion order

  type Dict<K, V> = seq<(K, V)>

  ghost predicate DistinctKeys<K, V>(d: Dict<K, V>) {
    forall i, j :: 0 <= i < j < |d| ==> d[i].0 != d[j].0
  }

  function Get<K(==), V>(d: Dict<K, V>, k: K): (r: Option<V>)
    ensures r.Some? ==> (k, r.value) in d
    ensures r.None? ==> forall i | 0 <= i < |d| :: d[i].0 != k
  {
    if d == [] then None else if d[0].0 == k then Some(d[0].1) else Get(d[1..], k)
  }

  function KeysOf<K, V>(d: Dict<K, V>): (ks: seq<K>)
    ensures |ks| == |d| && forall i | 0 <= i < |ks| :: ks[i] == d[i].0
  {
    seq(|d|, i requires 0 <= i < |d| => d[i].0)
  }

  /** Overwrites in place, or appends a new key at the end. */
  function Set<K(==), V>(d: Dict<K, V>, k: K, v: V): Dict<K, V> {
    if d == [] then [(k, v)]
    else if d[0].0 == k then [(k, v)] + d[1..]
    else [d[0]] + Set(d[1..], k, v)
  }

  lemma {:induction false} GetSet<K, V>(d: Dict<K, V>, k: K, v: V, q: K)
    ensures Get(Set(d, k, v), q) == if q == k then Some(v) else Get(d, q)
  {
    if d != [] {
      if d[0].0 == k {
        assert Set(d, k, v)[1..] == d[1..];
      } else {
        GetSet(d[1..], k, v, q);
        assert Set(d, k, v)[1..] == Set(d[1..], k, v);
      }
    }
  }

  /** Setting keeps every key at its place: a new one goes to the end. */
  lemma {:induction false} SetShape<K, V>(d: Dict<K, V>, k: K, v: V)
    ensures Get(d, k).None? ==> Set(d, k, v) == d + [(k, v)]
    ensures Get(d, k).Some? ==> |Set(d, k, v)| == |d| && forall i | 0 <= i < |d| :: Set(d, k, v)[i].0 == d[i].0
  {
    if d != [] && d[0].0 != k {
      SetShape(d[1..], k, v);
    }
  }

  lemma SetDistinct<K, V>(d: Dict<K, V>, k: K, v: V)
    requires DistinctKeys(d)
    ensures DistinctKeys(Set(d, k, v))
  {
    SetShape(d, k, v);
  }

  lemma {:induction false} GetAt<K, V>(d: Dict<K, V>, i: nat)
    requires DistinctKeys(d) && i < |d|
    ensures Get(d, d[i].0) == Some(d[i].1)
  {
    if i > 0 {
      GetAt(d[1..], i - 1);
    }
  }

  lemma {:induction false} SetMembers<K, V>(d: Dict<K, V>, k: K, v: V, i: nat)
    requires i < |Set(d, k, v)|
    ensures Set(d, k, v)[i] == (k, v) || Set(d, k, v)[i] in d
  {
    if d != [] && i > 0 {
      if d[0].0 == k {
        assert Set(d, k, v)[i] == d[i];
      } else {
        SetMembers(d[1..], k, v, i - 1);
      }
    }
  }

  // ----- Rearranging

  lemma MultisetWithout<T>(s: seq<T>, i: nat)
    requires i < |s|
    ensures multiset(s) == multiset{s[i]} + multiset(s[..i] + s[i + 1..])
  {
    assert s == s[..i] + [s[i]] + s[i + 1..];
  }

  /** The first element of a list appears in every rearrangement; removing it leaves rearrangements. */
  lemma SameElementElsewhere<T>(a: seq<T>, b: seq<T>) returns (i: nat)
    requires a != [] && multiset(a) == multiset(b)
    ensures i < |b| && b[i] == a[0]
    ensures multiset(a[1..]) == multiset(b[..i] + b[i + 1..])
  {
    assert a[0] in multiset(b);
    i :| 0 <= i < |b| && b[i] == a[0];
    MultisetWithout(b, i);
    assert a == [a[0]] + a[1..];
    assert multiset(a[1..]) == multiset(a) - multiset{a[0]};
    assert multiset(b[..i] + b[i + 1..]) == multiset(b) - multiset{b[i]};
  }
}
