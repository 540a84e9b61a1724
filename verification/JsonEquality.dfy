/**
 The canonical text decides equality of values: two values have the same text exactly when they are
 equal the way Python compares them, where the order of a dict's entries does not count. Python also
 takes True for 1 and False for 0; here, where they print differently, they differ.
 */
module JsonEquality {
  import opened KeyOrder
  import opened CanonicalJson
  import opened JsonParser

  /** A dict has each key once, at every depth. */
  ghost predicate WellFormed(v: Json)
    decreases v
  {
    match v
    case Arr(items) => forall i :: 0 <= i < |items| ==> WellFormed(items[i])
    case Obj(entries) =>
      && (forall i, j :: 0 <= i < j < |entries| ==> entries[i].key != entries[j].key)
      && (forall i :: 0 <= i < |entries| ==> WellFormed(entries[i].value))
    case _ => true
  }

  /** Python equality, booleans apart from numbers: lists element by element; dicts have the same keys with
      equal values, that is, each entry of either one has an equal entry in the other. */
  ghost predicate Same(v: Json, w: Json)
    decreases v, 2, 0
  {
    match (v, w)
    case (Arr(xs), Arr(ys)) => SameItems(xs, ys)
    case (Obj(es), Obj(fs)) => Covered(es, fs) && Covering(es, fs)
    case _ => v == w
  }

  ghost predicate SameItems(xs: seq<Json>, ys: seq<Json>)
    decreases xs, 0, 0
  {
    if xs == [] then ys == []
    else ys != [] && Same(xs[0], ys[0]) && SameItems(xs[1..], ys[1..])
  }

  ghost predicate Covered(es: seq<Entry>, fs: seq<Entry>)
    decreases es, 1, 0
  {
    es == [] || (HasTarget(es[0], fs) && Covered(es[1..], fs))
  }

  ghost predicate HasTarget(e: Entry, fs: seq<Entry>)
    decreases e, 0, |fs|
  {
    fs != [] && ((e.key == fs[0].key && Same(e.value, fs[0].value)) || HasTarget(e, fs[1..]))
  }

  ghost predicate Covering(es: seq<Entry>, fs: seq<Entry>)
    decreases es, 1, |fs|
  {
    fs == [] || (HasSource(es, fs[0]) && Covering(es, fs[1..]))
  }

  ghost predicate HasSource(es: seq<Entry>, f: Entry)
    decreases es, 0, 0
  {
    es != [] && ((es[0].key == f.key && Same(es[0].value, f.value)) || HasSource(es[1..], f))
  }

  lemma WellFormedParts(es: seq<Entry>)
    requires WellFormed(Obj(es)) && es != []
    ensures WellFormed(es[0].value) && WellFormed(Obj(es[1..]))
  {
    var tail := es[1..];
    assert forall i :: 0 <= i < |tail| ==> tail[i] == es[i + 1];
  }

  lemma {:induction false} NormalEntriesAt(entries: seq<Entry>)
    ensures forall i :: 0 <= i < |entries| ==> NormalEntries(entries)[i] == NormalEntry(entries[i])
  {
    if entries != [] {
      NormalEntriesAt(entries[1..]);
    }
  }

  lemma DistinctNormalKeys(entries: seq<Entry>)
    requires WellFormed(Obj(entries))
    ensures DistinctKeys(EntryKey, NormalEntries(entries))
  {
    NormalEntriesAt(entries);
    var n := NormalEntries(entries);
    forall i, j | 0 <= i < j < |n| ensures EntryKey(n[i]) != EntryKey(n[j]) {
      if EntryKey(n[i]) == EntryKey(n[j]) {
        PointsInjective(entries[i].key, entries[j].key);
        assert false;
      }
    }
  }

  lemma {:induction false} NormalDecidesSame(v: Json, w: Json)
    requires WellFormed(v) && WellFormed(w)
    ensures Normal(v) == Normal(w) <==> Same(v, w)
    decreases v, 2, 0
  {
    match (v, w)
    case (Arr(xs), Arr(ys)) => NormalDecidesItems(xs, ys);
    case (Obj(es), Obj(fs)) =>
      var n, m := NormalEntries(es), NormalEntries(fs);
      DistinctNormalKeys(es);
      DistinctNormalKeys(fs);
      SameElements(n, m);
      NormalDecidesCovered(es, fs);
      NormalDecidesCovering(es, fs);
    case _ =>
  }

  lemma {:induction false} NormalDecidesItems(xs: seq<Json>, ys: seq<Json>)
    requires forall i :: 0 <= i < |xs| ==> WellFormed(xs[i])
    requires forall i :: 0 <= i < |ys| ==> WellFormed(ys[i])
    ensures NormalItems(xs) == NormalItems(ys) <==> SameItems(xs, ys)
    decreases xs, 0, 0
  {
    if xs != [] && ys != [] {
      NormalDecidesSame(xs[0], ys[0]);
      NormalDecidesItems(xs[1..], ys[1..]);
      assert NormalItems(xs)[1..] == NormalItems(xs[1..]);
      assert NormalItems(ys)[1..] == NormalItems(ys[1..]);
    }
  }

  lemma {:induction false} NormalDecidesCovered(es: seq<Entry>, fs: seq<Entry>)
    requires WellFormed(Obj(es)) && WellFormed(Obj(fs))
    ensures Covered(es, fs) <==> Within(NormalEntries(es), NormalEntries(fs))
    decreases es, 1, 0
  {
    if es != [] {
      WellFormedParts(es);
      NormalDecidesTarget(es[0], fs);
      NormalDecidesCovered(es[1..], fs);
      var n := NormalEntries(es);
      assert forall x :: x in n <==> x == n[0] || x in n[1..];
      assert n[1..] == NormalEntries(es[1..]);
    }
  }

  lemma {:induction false} NormalDecidesTarget(e: Entry, fs: seq<Entry>)
    requires WellFormed(e.value) && WellFormed(Obj(fs))
    ensures HasTarget(e, fs) <==> NormalEntry(e) in NormalEntries(fs)
    decreases e, 0, |fs|
  {
    if fs != [] {
      WellFormedParts(fs);
      NormalDecidesSame(e.value, fs[0].value);
      NormalDecidesTarget(e, fs[1..]);
    }
  }

  lemma {:induction false} NormalDecidesCovering(es: seq<Entry>, fs: seq<Entry>)
    requires WellFormed(Obj(es)) && WellFormed(Obj(fs))
    ensures Covering(es, fs) <==> Within(NormalEntries(fs), NormalEntries(es))
    decreases es, 1, |fs|
  {
    if fs != [] {
      WellFormedParts(fs);
      NormalDecidesSource(es, fs[0]);
      NormalDecidesCovering(es, fs[1..]);
      var m := NormalEntries(fs);
      assert forall x :: x in m <==> x == m[0] || x in m[1..];
      assert m[1..] == NormalEntries(fs[1..]);
    }
  }

  lemma {:induction false} NormalDecidesSource(es: seq<Entry>, f: Entry)
    requires WellFormed(Obj(es)) && WellFormed(f.value)
    ensures HasSource(es, f) <==> NormalEntry(f) in NormalEntries(es)
    decreases es, 0, 0
  {
    if es != [] {
      WellFormedParts(es);
      NormalDecidesSame(es[0].value, f.value);
      NormalDecidesSource(es[1..], f);
    }
  }

  ghost predicate Within(n: seq<Entry>, m: seq<Entry>) {
    forall x :: x in n ==> x in m
  }

  /** Sorting forgets the order and nothing else. */
  lemma SameElements(n: seq<Entry>, m: seq<Entry>)
    requires DistinctKeys(EntryKey, n) && DistinctKeys(EntryKey, m)
    ensures Sort(EntryKey, n) == Sort(EntryKey, m) <==> Within(n, m) && Within(m, n)
  {
    SortIsSorted(EntryKey, n);
    SortIsSorted(EntryKey, m);
    var s, t := Sort(EntryKey, n), Sort(EntryKey, m);
    assert forall x :: x in s <==> x in multiset(s);
    assert forall x :: x in n <==> x in multiset(n);
    assert forall x :: x in t <==> x in multiset(t);
    assert forall x :: x in m <==> x in multiset(m);
    if Within(n, m) && Within(m, n) {
      SortedUnique(EntryKey, s, t);
    }
  }

  // ---------------------------------------------------------------- normal values print alike

  lemma {:induction false} CanonicalOfNormal(v: Json)
    requires WellFormed(v)
    ensures Canonical(Normal(v)) == Canonical(v)
    decreases v, 1
  {
    match v
    case Arr(items) => ItemsOfNormal(items);
    case Obj(entries) =>
      var n := NormalEntries(entries);
      PartsOfNormal(entries);
      DistinctNormalKeys(entries);
      PartsOfSorted(n);
      PartsOfSorted(Sort(EntryKey, n));
      SortIsSorted(EntryKey, n);
      SortTwice(n);
    case _ =>
  }

  lemma SortTwice(n: seq<Entry>)
    requires DistinctKeys(EntryKey, n)
    ensures Sort(EntryKey, Sort(EntryKey, n)) == Sort(EntryKey, n)
  {
    SortIsSorted(EntryKey, n);
    var s := Sort(EntryKey, n);
    forall i, j | 0 <= i < j < |s| ensures EntryKey(s[i]) != EntryKey(s[j]) {
      StrictTotalOrder(EntryKey(s[i]), EntryKey(s[j]), []);
    }
    SortIsSorted(EntryKey, s);
    var t := Sort(EntryKey, s);
    assert forall x :: x in s <==> x in multiset(s);
    assert forall x :: x in t <==> x in multiset(t);
    SortedUnique(EntryKey, s, t);
  }

  lemma {:induction false} ItemsOfNormal(items: seq<Json>)
    requires forall i :: 0 <= i < |items| ==> WellFormed(items[i])
    ensures CanonicalItems(NormalItems(items)) == CanonicalItems(items)
    decreases items, 0
  {
    if items != [] {
      CanonicalOfNormal(items[0]);
      ItemsOfNormal(items[1..]);
    }
  }

  lemma {:induction false} PartsOfNormal(entries: seq<Entry>)
    requires forall i :: 0 <= i < |entries| ==> WellFormed(entries[i].value)
    ensures Parts(NormalEntries(entries)) == Parts(entries)
    decreases entries, 0
  {
    if entries != [] {
      CanonicalOfNormal(entries[0].value);
      PartsOfNormal(entries[1..]);
    }
  }

  /** The canonical text is the same exactly for equal values: it depends on no insertion order, and it
      is injective up to that order. */
  lemma CanonicalDecidesSame(v: Json, w: Json)
    requires WellFormed(v) && WellFormed(w)
    ensures Canonical(v) == Canonical(w) <==> Same(v, w)
  {
    NormalDecidesSame(v, w);
    CanonicalRoundTrip(v);
    CanonicalRoundTrip(w);
    CanonicalOfNormal(v);
    CanonicalOfNormal(w);
  }
}
