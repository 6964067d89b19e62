/** Stable sorting by an integer key, standing for Go's sort.Slice and sort.SliceStable over a Before comparison. */
module Sorting {
  /** One step of ranging over a map: Go fixes no order. */
  method PickAny<T>(s: set<T>) returns (x: T)
    requires s != {}
    ensures x in s
  {
    x :| x in s;
  }

  predicate SortedBy<T>(key: T -> int, xs: seq<T>) {
    forall i, j :: 0 <= i < j < |xs| ==> key(xs[i]) <= key(xs[j])
  }

  predicate DistinctBy<T>(key: T -> int, xs: seq<T>) {
    forall i, j :: 0 <= i < j < |xs| ==> key(xs[i]) != key(xs[j])
  }

  function Insert<T>(key: T -> int, x: T, xs: seq<T>): seq<T> {
    if xs == [] || key(x) < key(xs[0]) then [x] + xs else [xs[0]] + Insert(key, x, xs[1..])
  }

  function SortBy<T>(key: T -> int, xs: seq<T>): seq<T> {
    if xs == [] then [] else Insert(key, xs[|xs| - 1], SortBy(key, xs[..|xs| - 1]))
  }

  lemma {:induction false} InsertAdds<T>(key: T -> int, x: T, xs: seq<T>)
    ensures multiset(Insert(key, x, xs)) == multiset(xs) + multiset{x}
  {
    if xs != [] && key(x) >= key(xs[0]) {
      InsertAdds(key, x, xs[1..]);
      assert xs == [xs[0]] + xs[1..];
    }
  }

  lemma {:induction false} SortByPermutes<T>(key: T -> int, xs: seq<T>)
    ensures multiset(SortBy(key, xs)) == multiset(xs)
  {
    if xs != [] {
      var init, last := xs[..|xs| - 1], xs[|xs| - 1];
      SortByPermutes(key, init);
      InsertAdds(key, last, SortBy(key, init));
      assert xs == init + [last];
    }
  }

  lemma {:induction false} InsertSorted<T>(key: T -> int, x: T, xs: seq<T>)
    requires SortedBy(key, xs)
    ensures SortedBy(key, Insert(key, x, xs))
  {
    if xs != [] && key(x) >= key(xs[0]) {
      InsertSorted(key, x, xs[1..]);
      InsertAdds(key, x, xs[1..]);
      var r := Insert(key, x, xs[1..]);
      forall j | 0 <= j < |r| ensures key(xs[0]) <= key(r[j]) {
        assert r[j] in multiset(r);
        assert r[j] == x || r[j] in multiset(xs[1..]);
        assert r[j] == x || r[j] in xs[1..];
      }
    }
  }

  lemma {:induction false} SortBySorted<T>(key: T -> int, xs: seq<T>)
    ensures SortedBy(key, SortBy(key, xs))
  {
    if xs != [] {
      SortBySorted(key, xs[..|xs| - 1]);
      InsertSorted(key, xs[|xs| - 1], SortBy(key, xs[..|xs| - 1]));
    }
  }

  /** A permutation has the same members. */
  lemma SameMembers<T>(xs: seq<T>, ys: seq<T>)
    requires multiset(xs) == multiset(ys)
    ensures |xs| == |ys|
    ensures forall x :: x in xs <==> x in ys
  {
    assert |multiset(xs)| == |multiset(ys)|;
    forall x ensures x in xs <==> x in ys {
      assert x in multiset(xs) <==> x in multiset(ys);
    }
  }

  lemma {:induction false} CountAtMostOne<T>(key: T -> int, xs: seq<T>, v: T)
    requires DistinctBy(key, xs)
    ensures multiset(xs)[v] <= 1
  {
    if xs != [] {
      var rest := xs[..|xs| - 1];
      assert xs == rest + [xs[|xs| - 1]];
      CountAtMostOne(key, rest, v);
      assert xs[|xs| - 1] == v ==> v !in rest;
    }
  }

  /** Distinctness of keys survives permutation. */
  lemma DistinctPermutation<T>(key: T -> int, xs: seq<T>, ys: seq<T>)
    requires multiset(xs) == multiset(ys)
    requires DistinctBy(key, xs)
    ensures DistinctBy(key, ys)
  {
    SameMembers(xs, ys);
    forall i, j | 0 <= i < j < |ys| ensures key(ys[i]) != key(ys[j]) {
      assert ys[i] in xs && ys[j] in xs;
      var a :| 0 <= a < |xs| && xs[a] == ys[i];
      var b :| 0 <= b < |xs| && xs[b] == ys[j];
      if a == b {
        assert ys == ys[..i] + [ys[i]] + ys[i + 1..j] + [ys[i]] + ys[j + 1..];
        assert multiset(ys)[ys[i]] >= 2;
        CountAtMostOne(key, xs, ys[i]);
      }
    }
  }

  lemma TailMembers<T>(key: T -> int, xs: seq<T>, x: T)
    requires xs != [] && DistinctBy(key, xs)
    ensures x in xs[1..] <==> x in xs && x != xs[0]
  {
    if x in xs && x != xs[0] {
      var i :| 0 <= i < |xs| && xs[i] == x;
      assert xs[1..][i - 1] == x;
    }
  }

  /** Two strictly increasing lists with the same members are equal. */
  lemma {:induction false} StrictSortUnique<T>(key: T -> int, xs: seq<T>, ys: seq<T>)
    requires SortedBy(key, xs) && DistinctBy(key, xs)
    requires SortedBy(key, ys) && DistinctBy(key, ys)
    requires forall x :: x in xs <==> x in ys
    ensures xs == ys
  {
    if xs != [] { assert xs[0] in xs; }
    if ys != [] { assert ys[0] in ys; }
    if xs != [] {
      HeadsAgree(key, xs, ys);
      forall x ensures x in xs[1..] <==> x in ys[1..] {
        TailMembers(key, xs, x);
        TailMembers(key, ys, x);
      }
      StrictSortUnique(key, xs[1..], ys[1..]);
      assert xs == [xs[0]] + xs[1..] && ys == [ys[0]] + ys[1..];
    }
  }

  lemma HeadsAgree<T>(key: T -> int, xs: seq<T>, ys: seq<T>)
    requires xs != []
    requires SortedBy(key, xs) && DistinctBy(key, xs)
    requires SortedBy(key, ys) && DistinctBy(key, ys)
    requires forall x :: x in xs <==> x in ys
    ensures ys != [] && xs[0] == ys[0]
  {
    assert xs[0] in ys;
    assert ys[0] in xs;
    var i :| 0 <= i < |ys| && ys[i] == xs[0];
    var j :| 0 <= j < |xs| && xs[j] == ys[0];
    assert key(ys[0]) <= key(ys[i]) && key(xs[0]) <= key(xs[j]);
  }

  /** The elements of one key, in their order. */
  function OfKey<T>(key: T -> int, k: int, xs: seq<T>): seq<T> {
    if xs == [] then []
    else OfKey(key, k, xs[..|xs| - 1]) + (if key(xs[|xs| - 1]) == k then [xs[|xs| - 1]] else [])
  }

  lemma {:induction false} OfKeyAppend<T>(key: T -> int, k: int, xs: seq<T>, ys: seq<T>)
    ensures OfKey(key, k, xs + ys) == OfKey(key, k, xs) + OfKey(key, k, ys)
  {
    if ys == [] {
      assert xs + ys == xs;
    } else {
      assert (xs + ys)[..|xs + ys| - 1] == xs + ys[..|ys| - 1];
      OfKeyAppend(key, k, xs, ys[..|ys| - 1]);
    }
  }

  lemma {:induction false} InsertStable<T>(key: T -> int, x: T, xs: seq<T>, k: int)
    requires SortedBy(key, xs)
    ensures OfKey(key, k, Insert(key, x, xs)) == OfKey(key, k, xs + [x])
  {
    if xs == [] {
      assert [x] + xs == xs + [x];
    } else if key(x) < key(xs[0]) {
      OfKeyAppend(key, k, [x], xs);
      OfKeyAppend(key, k, xs, [x]);
      if key(x) == k { NoneOfKey(key, k, xs); }
    } else {
      var tail := xs[1..];
      InsertStable(key, x, tail, k);
      OfKeyAppend(key, k, [xs[0]], Insert(key, x, tail));
      OfKeyAppend(key, k, [xs[0]], tail + [x]);
      assert [xs[0]] + (tail + [x]) == xs + [x];
    }
  }

  lemma {:induction false} NoneOfKey<T>(key: T -> int, k: int, xs: seq<T>)
    requires forall i :: 0 <= i < |xs| ==> key(xs[i]) != k
    ensures OfKey(key, k, xs) == []
  {
    if xs != [] { NoneOfKey(key, k, xs[..|xs| - 1]); }
  }

  /** Stability: elements that compare equal keep their order. */
  lemma {:induction false} SortByStable<T>(key: T -> int, xs: seq<T>, k: int)
    ensures OfKey(key, k, SortBy(key, xs)) == OfKey(key, k, xs)
  {
    if xs != [] {
      var init, last := xs[..|xs| - 1], xs[|xs| - 1];
      SortBySorted(key, init);
      SortByStable(key, init, k);
      InsertStable(key, last, SortBy(key, init), k);
      OfKeyAppend(key, k, SortBy(key, init), [last]);
      OfKeyAppend(key, k, init, [last]);
      assert init + [last] == xs;
    }
  }

  // ----- the values of a bucket map

  predicate Keyed<T>(key: T -> int, buckets: map<int, T>) {
    forall k :: k in buckets ==> key(buckets[k]) == k
  }

  ghost predicate ListsValues<T>(key: T -> int, values: seq<T>, buckets: map<int, T>) {
    && DistinctBy(key, values)
    && (forall x :: x in values ==> key(x) in buckets && x == buckets[key(x)])
    && forall k :: k in buckets ==> buckets[k] in values
  }

  /** Ranges over the map in any order, then sorts by time. */
  method SortedValues<T>(key: T -> int, at: T -> int, buckets: map<int, T>) returns (out: seq<T>)
    requires Keyed(key, buckets)
    ensures SortedBy(at, out) && ListsValues(key, out, buckets)
  {
    var todo := buckets.Keys;
    var values: seq<T> := [];
    while todo != {}
      invariant todo <= buckets.Keys
      invariant forall x :: x in values ==> key(x) in buckets && key(x) !in todo && x == buckets[key(x)]
      invariant forall k :: k in buckets && k !in todo ==> buckets[k] in values
      invariant DistinctBy(key, values)
      decreases todo
    {
      var k := PickAny(todo);
      todo := todo - {k};
      values := values + [buckets[k]];
    }
    out := SortBy(at, values);
    SortBySorted(at, values);
    SortByPermutes(at, values);
    ListsValuesPermuted(key, values, out, buckets);
  }

  lemma ListsValuesPermuted<T>(key: T -> int, xs: seq<T>, ys: seq<T>, buckets: map<int, T>)
    requires ListsValues(key, xs, buckets) && multiset(xs) == multiset(ys)
    ensures ListsValues(key, ys, buckets)
  {
    SameMembers(xs, ys);
    DistinctPermutation(key, xs, ys);
    forall x | x in ys ensures key(x) in buckets && x == buckets[key(x)] {
      assert x in xs;
    }
  }
}
