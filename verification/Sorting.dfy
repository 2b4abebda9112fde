/** Stable sorting by a two-part key, and what sorting leaves alone. */
module Sorting {
  datatype Rank = Rank(major: int, minor: int)

  predicate AtMost(a: Rank, b: Rank) { a.major < b.major || (a.major == b.major && a.minor <= b.minor) }

  predicate Sorted<T>(items: seq<T>, key: T -> Rank) {
    forall i, j :: 0 <= i < j < |items| ==> AtMost(key(items[i]), key(items[j]))
  }

  method Sort<T(==)>(items: seq<T>, key: T -> Rank) returns (sorted: seq<T>)
    ensures Sorted(sorted, key) && multiset(sorted) == multiset(items)
  {
    sorted := [];
    for i := 0 to |items|
      invariant Sorted(sorted, key) && multiset(sorted) == multiset(items[..i])
    {
      assert items[..i + 1] == items[..i] + [items[i]];
      sorted := Place(sorted, items[i], key);
    }
    assert items[..|items|] == items;
  }

  method Place<T(==)>(sorted: seq<T>, item: T, key: T -> Rank) returns (placed: seq<T>)
    requires Sorted(sorted, key)
    ensures Sorted(placed, key) && multiset(placed) == multiset(sorted) + multiset{item}
  {
    var k: nat := |sorted|;
    while k > 0 && !AtMost(key(sorted[k - 1]), key(item))
      invariant k <= |sorted|
      invariant k < |sorted| ==> AtMost(key(item), key(sorted[k]))
    {
      k := k - 1;
    }
    placed := PlacedAt(sorted, item, k);
    PlacedIsSorted(sorted, item, k, key);
    PlacedMembers(sorted, item, k);
  }

  function PlacedAt<T>(sorted: seq<T>, item: T, k: nat): seq<T>
    requires k <= |sorted|
  {
    sorted[..k] + [item] + sorted[k..]
  }

  lemma {:induction false} PlacedMembers<T>(sorted: seq<T>, item: T, k: nat)
    requires k <= |sorted|
    ensures multiset(PlacedAt(sorted, item, k)) == multiset(sorted) + multiset{item}
  {
    assert sorted == sorted[..k] + sorted[k..];
  }

  lemma {:induction false} PlacedIsSorted<T>(sorted: seq<T>, item: T, k: nat, key: T -> Rank)
    requires Sorted(sorted, key) && k <= |sorted|
    requires k > 0 ==> AtMost(key(sorted[k - 1]), key(item))
    requires k < |sorted| ==> AtMost(key(item), key(sorted[k]))
    ensures Sorted(PlacedAt(sorted, item, k), key)
  {
    var a, b := sorted[..k], sorted[k..];
    var placed := a + [item] + b;
    forall i, j | 0 <= i < j < |placed| ensures AtMost(key(placed[i]), key(placed[j])) {
      if j < k {
        assert placed[i] == sorted[i] && placed[j] == sorted[j];
      } else if j == k {
        assert placed[i] == sorted[i] && placed[j] == item;
      } else {
        assert placed[j] == b[j - k - 1] == sorted[j - 1];
        if i > k { assert placed[i] == b[i - k - 1] == sorted[i - 1]; }
        else if i < k { assert placed[i] == sorted[i]; }
      }
    }
  }

  lemma {:induction false} SameMembers<T>(a: seq<T>, b: seq<T>)
    requires multiset(a) == multiset(b)
    ensures |a| == |b| && forall x :: x in a <==> x in b
  {
    assert |multiset(a)| == |multiset(b)|;
    forall x ensures x in a <==> x in b {
      assert x in a <==> x in multiset(a);
      assert x in b <==> x in multiset(b);
    }
  }

  predicate Distinct<T(==)>(items: seq<T>) { forall i, j :: 0 <= i < j < |items| ==> items[i] != items[j] }

  lemma {:induction false} CountAtMostOne<T>(items: seq<T>, x: T)
    requires Distinct(items)
    ensures multiset(items)[x] <= 1
  {
    if items != [] {
      var n := |items| - 1;
      assert items == items[..n] + [items[n]];
      CountAtMostOne(items[..n], x);
      if x == items[n] {
        assert x !in items[..n];
        assert multiset(items[..n])[x] == 0;
      }
    }
  }

  lemma {:induction false} StayDistinct<T>(items: seq<T>, sorted: seq<T>)
    requires Distinct(items) && multiset(sorted) == multiset(items)
    ensures Distinct(sorted)
  {
    forall i, j | 0 <= i < j < |sorted| ensures sorted[i] != sorted[j] {
      CountAtMostOne(items, sorted[i]);
      var a, b, c := sorted[..i], sorted[i + 1..j], sorted[j + 1..];
      assert sorted == a + [sorted[i]] + b + [sorted[j]] + c;
      assert multiset(sorted) == multiset(a) + multiset{sorted[i]} + multiset(b) + multiset{sorted[j]} + multiset(c);
    }
  }
}
