/** The array operations the stores and the sidebar are built from:
    `findIndex`, `filter` and the stable `sort` of ECMAScript 2019. */
module Lists {

  import opened Wrappers

  /** `keys.findIndex(k => k === x)`, with `None` for -1. */
  function FirstIndex<T(==)>(keys: seq<T>, x: T): (r: Option<nat>)
    ensures r.Some? ==> r.value < |keys| && keys[r.value] == x && x !in keys[..r.value]
    ensures r.None? <==> x !in keys
  {
    if keys == [] then None
    else if keys[0] == x then Some(0)
    else match FirstIndex(keys[1..], x)
      case None => None
      case Some(k) =>
        assert keys[..k + 1] == [keys[0]] + keys[1..][..k];
        Some(k + 1)
  }

  /** `s.map(f)`: `f` applied to each element, in order. */
  function Map<T, U>(s: seq<T>, f: T -> U): (r: seq<U>)
    ensures |r| == |s|
    ensures forall k :: 0 <= k < |s| ==> r[k] == f(s[k])
  {
    if s == [] then [] else [f(s[0])] + Map(s[1..], f)
  }

  /** Mapping an appended sequence maps each part. */
  lemma {:induction false} MapAppend<T, U>(a: seq<T>, b: seq<T>, f: T -> U)
    ensures Map(a + b, f) == Map(a, f) + Map(b, f)
  {
    assert forall k :: 0 <= k < |a| ==> (a + b)[k] == a[k];
    assert forall k :: |a| <= k < |a| + |b| ==> (a + b)[k] == b[k - |a|];
  }

  /** A value is in the mapped sequence exactly when some element maps to it. */
  lemma MapMembers<T, U>(s: seq<T>, f: T -> U, y: U)
    ensures y in Map(s, f) <==> exists k :: 0 <= k < |s| && f(s[k]) == y
  {
    var r := Map(s, f);
    if y in r {
      var k :| 0 <= k < |r| && r[k] == y;
      assert f(s[k]) == y;
    }
  }

  /** `s.filter(keep)`: the elements kept, in their original order. */
  function Filter<T(==)>(s: seq<T>, keep: T -> bool): (r: seq<T>)
    ensures |r| <= |s|
    ensures forall k :: 0 <= k < |r| ==> keep(r[k])
    ensures (forall k :: 0 <= k < |s| ==> keep(s[k])) ==> r == s
  {
    if s == [] then []
    else if keep(s[0]) then [s[0]] + Filter(s[1..], keep)
    else Filter(s[1..], keep)
  }

  /** The elements filtering keeps are exactly the elements of `s` that pass. */
  lemma {:induction false} FilterMembers<T>(s: seq<T>, keep: T -> bool)
    ensures forall x :: x in Filter(s, keep) ==> x in s && keep(x)
    ensures forall x :: x in s && keep(x) ==> x in Filter(s, keep)
  {
    if s != [] {
      FilterMembers(s[1..], keep);
      assert s == [s[0]] + s[1..];
    }
  }

  /** Filtering twice with the same test is filtering once. */
  lemma {:induction false} FilterIdempotent<T>(s: seq<T>, keep: T -> bool)
    ensures Filter(Filter(s, keep), keep) == Filter(s, keep)
  {
    var r := Filter(s, keep);
    forall k | 0 <= k < |r| ensures keep(r[k]) {
      assert r[k] in r;
    }
  }

  /** An element related to every later one is related to every element
      that filtering keeps after it. */
  lemma HeadRelatedToKept<T>(s: seq<T>, keep: T -> bool, rel: (T, T) -> bool)
    requires s != []
    requires forall q :: 0 < q < |s| ==> rel(s[0], s[q])
    ensures forall j :: 0 <= j < |Filter(s[1..], keep)| ==> rel(s[0], Filter(s[1..], keep)[j])
  {
    var rest := Filter(s[1..], keep);
    FilterMembers(s[1..], keep);
    forall j | 0 <= j < |rest| ensures rel(s[0], rest[j]) {
      assert rest[j] in rest;
      assert rest[j] in s[1..];
      var q :| 0 <= q < |s[1..]| && s[1..][q] == rest[j];
      assert s[q + 1] == rest[j];
    }
  }

  /** Putting in front of a pairwise-related sequence an element related to
      each of its elements keeps every ordered pair related. */
  lemma ConsPairwise<T>(x: T, rest: seq<T>, rel: (T, T) -> bool)
    requires forall j :: 0 <= j < |rest| ==> rel(x, rest[j])
    requires forall p, q :: 0 <= p < q < |rest| ==> rel(rest[p], rest[q])
    ensures forall i, j :: 0 <= i < j < |[x] + rest| ==> rel(([x] + rest)[i], ([x] + rest)[j])
  {
    var r := [x] + rest;
    forall i, j | 0 <= i < j < |r| ensures rel(r[i], r[j]) {
      if i == 0 {
        assert r[j] == rest[j - 1];
      } else {
        assert r[i] == rest[i - 1] && r[j] == rest[j - 1];
      }
    }
  }

  /** Filtering keeps the relative order: a relation that holds of every
      ordered pair of the input holds of every ordered pair of the output. */
  lemma {:induction false} FilterPairwise<T>(s: seq<T>, keep: T -> bool, rel: (T, T) -> bool)
    requires forall p, q :: 0 <= p < q < |s| ==> rel(s[p], s[q])
    ensures forall i, j :: 0 <= i < j < |Filter(s, keep)| ==> rel(Filter(s, keep)[i], Filter(s, keep)[j])
  {
    if s != [] {
      var tail := s[1..];
      forall p, q | 0 <= p < q < |tail| ensures rel(tail[p], tail[q]) {
        assert tail[p] == s[p + 1] && tail[q] == s[q + 1];
      }
      FilterPairwise(tail, keep, rel);
      if keep(s[0]) {
        HeadRelatedToKept(s, keep, rel);
        ConsPairwise(s[0], Filter(tail, keep), rel);
      }
    }
  }


  /** Filtering an appended sequence filters each part. */
  lemma {:induction false} FilterAppend<T>(a: seq<T>, b: seq<T>, keep: T -> bool)
    ensures Filter(a + b, keep) == Filter(a, keep) + Filter(b, keep)
    decreases |a|
  {
    if a != [] {
      assert (a + b)[1..] == a[1..] + b;
      FilterAppend(a[1..], b, keep);
    } else {
      assert a + b == b;
    }
  }

  /** Non-increasing by `key`. */
  predicate SortedDesc<T>(s: seq<T>, key: T -> int)
  {
    forall i, j :: 0 <= i < j < |s| ==> key(s[i]) >= key(s[j])
  }

  /** Inserts `x` before the first element whose key is not larger than its own. */
  function InsertDesc<T(==)>(x: T, s: seq<T>, key: T -> int): (r: seq<T>)
    requires SortedDesc(s, key)
    ensures SortedDesc(r, key)
    ensures multiset(r) == multiset(s) + multiset{x}
    ensures r != [] && (r[0] == x || (s != [] && r[0] == s[0]))
  {
    if s == [] || key(s[0]) <= key(x) then ConsSorted(x, s, key); [x] + s
    else
      var t := InsertDesc(x, s[1..], key);
      assert s == [s[0]] + s[1..];
      KeyAtLeastAll(s[0], t, s[1..], x, key);
      ConsSorted(s[0], t, key);
      [s[0]] + t
  }

  /** An element whose key is at least every key of `t` may go in front. */
  lemma ConsSorted<T>(y: T, t: seq<T>, key: T -> int)
    requires SortedDesc(t, key)
    requires forall j :: 0 <= j < |t| ==> key(y) >= key(t[j])
    ensures SortedDesc([y] + t, key)
  {
    var r := [y] + t;
    forall i, j | 0 <= i < j < |r| ensures key(r[i]) >= key(r[j]) {
      assert r[j] == t[j - 1];
      if i > 0 {
        assert r[i] == t[i - 1];
      }
    }
  }

  /** A key at least every key of `u` and above `x`'s is at least every key
      of a rearrangement of `u` with `x` added. */
  lemma KeyAtLeastAll<T>(y: T, t: seq<T>, u: seq<T>, x: T, key: T -> int)
    requires multiset(t) == multiset(u) + multiset{x}
    requires key(y) > key(x)
    requires forall q :: 0 <= q < |u| ==> key(y) >= key(u[q])
    ensures forall j :: 0 <= j < |t| ==> key(y) >= key(t[j])
  {
    forall j | 0 <= j < |t| ensures key(y) >= key(t[j]) {
      assert t[j] in multiset(t);
      if t[j] != x {
        assert t[j] in multiset(u);
        var q :| 0 <= q < |u| && u[q] == t[j];
      }
    }
  }

  /** `s.sort((a, b) => key(b) - key(a))`: an insertion sort that keeps
      equal keys in their original order. */
  function SortDesc<T(==)>(s: seq<T>, key: T -> int): (r: seq<T>)
    ensures SortedDesc(r, key)
    ensures multiset(r) == multiset(s)
    ensures |r| == |s|
  {
    if s == [] then []
    else
      assert s == [s[0]] + s[1..];
      InsertDesc(s[0], SortDesc(s[1..], key), key)
  }

  /** A sequence already in order is returned as it is. */
  lemma {:induction false} SortDescSorted<T>(s: seq<T>, key: T -> int)
    requires SortedDesc(s, key)
    ensures SortDesc(s, key) == s
  {
    if s != [] {
      SortDescSorted(s[1..], key);
    }
  }
}
