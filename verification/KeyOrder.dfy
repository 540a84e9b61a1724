/**
 The order of object keys: by code point, as Python compares tuples of ordinals and the TypeScript
 comparator compares arrays of code points. Sorting is by a key function, so one set of results serves
 every list that is sorted by it.
 */
module KeyOrder {
  type Points = seq<int>

  function PointsOf(s: string): (p: Points)
    ensures |p| == |s|
  {
    seq(|s|, i requires 0 <= i < |s| => s[i] as int)
  }

  lemma PointsInjective(s: string, t: string)
    requires PointsOf(s) == PointsOf(t)
    ensures s == t
  {
    assert forall i :: 0 <= i < |s| ==> PointsOf(s)[i] == PointsOf(t)[i] ==> s[i] == t[i];
  }

  predicate Before(a: Points, b: Points) {
    b != [] && (a == [] || a[0] < b[0] || (a[0] == b[0] && Before(a[1..], b[1..])))
  }

  /** Before is a strict total order. */
  lemma {:induction false} StrictTotalOrder(a: Points, b: Points, c: Points)
    ensures !Before(a, a)
    ensures Before(a, b) && Before(b, c) ==> Before(a, c)
    ensures a != b ==> Before(a, b) || Before(b, a)
  {
    if a != [] && b != [] && c != [] {
      StrictTotalOrder(a[1..], b[1..], c[1..]);
    } else if a != [] && b != [] {
      StrictTotalOrder(a[1..], b[1..], []);
    } else if a != [] {
      StrictTotalOrder(a[1..], [], []);
    }
    if a != [] && b != [] && a[0] == b[0] && a[1..] == b[1..] {
      assert a == [a[0]] + a[1..] && b == [b[0]] + b[1..];
    }
  }

  /** The first position where two point lists differ decides. */
  lemma {:induction false} BeforeAt(a: Points, b: Points, n: nat)
    requires n <= |a| && n <= |b| && a[..n] == b[..n]
    ensures n < |a| && n < |b| && a[n] != b[n] ==> (Before(a, b) <==> a[n] < b[n])
    ensures n == |a| || n == |b| ==> (Before(a, b) <==> |a| < |b|)
  {
    if n > 0 {
      assert a[0] == a[..n][0] && b[0] == b[..n][0];
      assert a[1..][..n - 1] == a[..n][1..] && b[1..][..n - 1] == b[..n][1..];
      BeforeAt(a[1..], b[1..], n - 1);
    }
  }

  // ---------------------------------------------------------------- sorting

  function Insert<T>(key: T -> Points, x: T, s: seq<T>): seq<T> {
    if s == [] || !Before(key(s[0]), key(x)) then [x] + s else [s[0]] + Insert(key, x, s[1..])
  }

  function Sort<T>(key: T -> Points, s: seq<T>): seq<T> {
    if s == [] then [] else Insert(key, s[0], Sort(key, s[1..]))
  }

  function Map<A, B>(f: A -> B, s: seq<A>): seq<B> {
    if s == [] then [] else [f(s[0])] + Map(f, s[1..])
  }

  ghost predicate DistinctKeys<T>(key: T -> Points, s: seq<T>) {
    forall i, j :: 0 <= i < j < |s| ==> key(s[i]) != key(s[j])
  }

  ghost predicate Sorted<T>(key: T -> Points, s: seq<T>) {
    forall i, j :: 0 <= i < j < |s| ==> Before(key(s[i]), key(s[j]))
  }

  lemma {:induction false} InsertIsSorted<T>(key: T -> Points, x: T, s: seq<T>)
    requires Sorted(key, s) && forall i :: 0 <= i < |s| ==> key(s[i]) != key(x)
    ensures Sorted(key, Insert(key, x, s))
    ensures multiset(Insert(key, x, s)) == multiset(s) + multiset{x}
  {
    if s == [] {
    } else if !Before(key(s[0]), key(x)) {
      StrictTotalOrder(key(x), key(s[0]), []);
      forall i | 0 <= i < |s| ensures Before(key(x), key(s[i])) {
        StrictTotalOrder(key(x), key(s[0]), key(s[i]));
      }
      assert [x] + s == Insert(key, x, s);
    } else {
      var tail := s[1..];
      InsertIsSorted(key, x, tail);
      var r := Insert(key, x, tail);
      assert s == [s[0]] + tail;
      forall i | 0 <= i < |r| ensures Before(key(s[0]), key(r[i])) {
        assert r[i] in multiset(r);
        assert r[i] == x || r[i] in tail;
      }
    }
  }

  /** Sorting distinct keys gives a strictly sorted rearrangement. */
  lemma {:induction false} SortIsSorted<T>(key: T -> Points, s: seq<T>)
    requires DistinctKeys(key, s)
    ensures Sorted(key, Sort(key, s)) && multiset(Sort(key, s)) == multiset(s)
  {
    if s != [] {
      SortIsSorted(key, s[1..]);
      assert s == [s[0]] + s[1..];
      var r := Sort(key, s[1..]);
      forall i | 0 <= i < |r| ensures key(r[i]) != key(s[0]) {
        assert r[i] in multiset(r);
        assert r[i] in s[1..];
      }
      InsertIsSorted(key, s[0], r);
    }
  }

  /** There is only one strictly sorted sequence of given elements, whatever algorithm finds it. */
  lemma {:induction false} SortedUnique<T>(key: T -> Points, s: seq<T>, t: seq<T>)
    requires Sorted(key, s) && Sorted(key, t)
    requires forall x :: x in s <==> x in t
    ensures s == t
  {
    assert s != [] ==> s[0] in s;
    assert t != [] ==> t[0] in t;
    if s != [] && t != [] {
      assert s[0] in t && t[0] in s;
      if s[0] != t[0] {
        StrictTotalOrder(key(s[0]), key(t[0]), key(s[0]));
        assert false;
      }
      forall x ensures x in s[1..] <==> x in t[1..] {
        StrictTotalOrder(key(s[0]), [], []);
        assert x in s <==> x == s[0] || x in s[1..];
        assert x in t <==> x == t[0] || x in t[1..];
      }
      SortedUnique(key, s[1..], t[1..]);
      assert s == [s[0]] + s[1..] && t == [t[0]] + t[1..];
    }
  }

  /** Sorting sees the keys only, so it commutes with any map that keeps them. */
  lemma {:induction false} SortMap<A, B>(ka: A -> Points, kb: B -> Points, f: A -> B, s: seq<A>)
    requires forall i :: 0 <= i < |s| ==> kb(f(s[i])) == ka(s[i])
    ensures Sort(kb, Map(f, s)) == Map(f, Sort(ka, s))
    ensures forall x :: x in Sort(ka, s) ==> x in s
  {
    if s != [] {
      SortMap(ka, kb, f, s[1..]);
      var r := Sort(ka, s[1..]);
      assert forall x :: x in r ==> x in s && kb(f(x)) == ka(x);
      InsertMap(ka, kb, f, s[0], r);
      assert Map(f, s)[1..] == Map(f, s[1..]);
    }
  }

  lemma {:induction false} InsertMap<A, B>(ka: A -> Points, kb: B -> Points, f: A -> B, x: A, s: seq<A>)
    requires kb(f(x)) == ka(x) && forall i :: 0 <= i < |s| ==> kb(f(s[i])) == ka(s[i])
    ensures Insert(kb, f(x), Map(f, s)) == Map(f, Insert(ka, x, s))
    ensures forall y :: y in Insert(ka, x, s) ==> y == x || y in s
  {
    if s == [] {
    } else if !Before(ka(s[0]), ka(x)) {
      assert ([x] + s)[1..] == s;
    } else {
      InsertMap(ka, kb, f, x, s[1..]);
      assert Map(f, s)[1..] == Map(f, s[1..]);
      assert ([s[0]] + Insert(ka, x, s[1..]))[1..] == Insert(ka, x, s[1..]);
    }
  }

  lemma {:induction false} MapLength<A, B>(f: A -> B, s: seq<A>)
    ensures |Map(f, s)| == |s| && forall i :: 0 <= i < |s| ==> Map(f, s)[i] == f(s[i])
  {
    if s != [] {
      MapLength(f, s[1..]);
    }
  }
}
