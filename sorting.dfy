/**
 * Ascending sort of integers, as the tempo estimator applies to its list of
 * inter-beat intervals. `Sort` is the reference definition; `SortInPlace`
 * is the array algorithm, proved to produce exactly `Sort` of its input.
 */
module Sorting {
  predicate Sorted(s: seq<int>)
  {
    forall i, j :: 0 <= i < j < |s| ==> s[i] <= s[j]
  }

  /** Inserts `x` before the first element not below it. */
  function Insert(x: int, s: seq<int>): seq<int>
  {
    if s == [] then [x]
    else if x <= s[0] then [x] + s
    else [s[0]] + Insert(x, s[1..])
  }

  /** Insertion adds exactly `x`. */
  lemma {:induction false} InsertPermutes(x: int, s: seq<int>)
    ensures |Insert(x, s)| == |s| + 1
    ensures multiset(Insert(x, s)) == multiset(s) + multiset{x}
  {
    if s != [] && x > s[0] {
      InsertPermutes(x, s[1..]);
      assert s == [s[0]] + s[1..];
    }
  }

  /** Insertion into a sorted sequence keeps it sorted. */
  lemma {:induction false} InsertSorted(x: int, s: seq<int>)
    requires Sorted(s)
    ensures Sorted(Insert(x, s))
  {
    if s != [] && x > s[0] {
      var rest := Insert(x, s[1..]);
      InsertSorted(x, s[1..]);
      InsertAbove(x, s[1..], s[0]);
      assert Insert(x, s) == [s[0]] + rest;
    }
  }

  /** Inserting a value at least `lo` among values at least `lo` leaves only values at least `lo`. */
  lemma {:induction false} InsertAbove(x: int, s: seq<int>, lo: int)
    requires lo <= x && forall k :: 0 <= k < |s| ==> lo <= s[k]
    ensures forall k :: 0 <= k < |Insert(x, s)| ==> lo <= Insert(x, s)[k]
  {
    if s != [] && x > s[0] {
      InsertAbove(x, s[1..], lo);
      assert Insert(x, s) == [s[0]] + Insert(x, s[1..]);
    }
  }

  /** The reference sort: insertion of each element into the sorted rest. */
  function Sort(s: seq<int>): (r: seq<int>)
    ensures |r| == |s|
  {
    if s == [] then []
    else
      InsertPermutes(s[0], Sort(s[1..]));
      Insert(s[0], Sort(s[1..]))
  }

  /** `Sort(s)` is the sorted permutation of `s`. */
  lemma SortSpec(s: seq<int>)
    ensures Sorted(Sort(s))
    ensures multiset(Sort(s)) == multiset(s)
  {
    SortSorted(s);
    SortPermutes(s);
  }

  /** `Sort(s)` is sorted. */
  lemma {:induction false} SortSorted(s: seq<int>)
    ensures Sorted(Sort(s))
  {
    if s != [] {
      SortSorted(s[1..]);
      InsertSorted(s[0], Sort(s[1..]));
    }
  }

  /** `Sort(s)` holds exactly the elements of `s`. */
  lemma {:induction false} SortPermutes(s: seq<int>)
    ensures multiset(Sort(s)) == multiset(s)
  {
    if s != [] {
      var rest := Sort(s[1..]);
      SortPermutes(s[1..]);
      InsertPermutes(s[0], rest);
      assert s == [s[0]] + s[1..];
      assert multiset(s) == multiset(s[1..]) + multiset{s[0]};
    }
  }

  /** Sorting two elements puts the smaller first. */
  lemma SortTwo(x: int, y: int)
    ensures Sort([x, y]) == if x <= y then [x, y] else [y, x]
  {
    assert [y][1..] == [] && [x, y][1..] == [y];
    assert Sort([y]) == Insert(y, []) == [y];
    assert Sort([x, y]) == Insert(x, [y]);
    if y < x {
      assert Insert(x, [y]) == [y] + Insert(x, []);
    }
  }

  lemma SortedHeadIsLeast(s: seq<int>, y: int)
    requires Sorted(s) && y in multiset(s)
    ensures s[0] <= y
  {
    var k :| 0 <= k < |s| && s[k] == y;
  }

  /** Two sorted sequences holding the same non-empty multiset start alike. */
  lemma SortedHeads(a: seq<int>, b: seq<int>)
    requires Sorted(a) && Sorted(b) && multiset(a) == multiset(b) && a != []
    ensures b != [] && a[0] == b[0]
  {
    assert a[0] in multiset(a);
    assert b != [] && b[0] in multiset(b);
    SortedHeadIsLeast(b, a[0]);
    SortedHeadIsLeast(a, b[0]);
  }

  /** Removing equal heads from equal multisets leaves equal multisets. */
  lemma TailsPermute(a: seq<int>, b: seq<int>)
    requires a != [] && b != [] && a[0] == b[0] && multiset(a) == multiset(b)
    ensures multiset(a[1..]) == multiset(b[1..])
  {
    assert a == [a[0]] + a[1..] && b == [b[0]] + b[1..];
    assert multiset(a) == multiset{a[0]} + multiset(a[1..]);
    assert multiset(b) == multiset{b[0]} + multiset(b[1..]);
    assert multiset(a[1..]) == multiset(a) - multiset{a[0]};
    assert multiset(b[1..]) == multiset(b) - multiset{b[0]};
  }

  /** Two sorted sequences holding the same multiset are equal. */
  lemma {:induction false} SortedUnique(a: seq<int>, b: seq<int>)
    requires Sorted(a) && Sorted(b)
    requires multiset(a) == multiset(b)
    ensures a == b
  {
    if a != [] {
      SortedHeads(a, b);
      TailsPermute(a, b);
      SortedUnique(a[1..], b[1..]);
      assert a == [a[0]] + a[1..] && b == [b[0]] + b[1..];
    } else {
      assert |b| == |multiset(b)| == 0;
    }
  }

  /** Every element of `Sort(s)` is an element of `s`. */
  lemma SortElementOf(s: seq<int>, k: nat)
    requires k < |s|
    ensures Sort(s)[k] in multiset(s)
  {
    SortSpec(s);
    assert Sort(s)[k] in multiset(Sort(s));
  }

  /**
   * Moves `a[i]` down into the sorted prefix `a[..i]` by adjacent swaps, so
   * that `a[..i + 1]` is sorted.
   */
  method InsertNext(a: array<int>, i: nat)
    requires i < a.Length
    requires forall p, q :: 0 <= p < q < i ==> a[p] <= a[q]
    modifies a
    ensures forall p, q :: 0 <= p < q <= i ==> a[p] <= a[q]
    ensures multiset(a[..]) == multiset(old(a[..]))
  {
    var j := i;
    while j > 0 && a[j - 1] > a[j]
      invariant 0 <= j <= i
      invariant forall p, q :: 0 <= p < q <= i && p != j && q != j ==> a[p] <= a[q]
      invariant forall q :: j < q <= i ==> a[j] < a[q]
      invariant multiset(a[..]) == multiset(old(a[..]))
    {
      ghost var before := a[..];
      a[j - 1], a[j] := a[j], a[j - 1];
      assert a[..] == before[j - 1 := before[j]][j := before[j - 1]];
      j := j - 1;
    }
  }

  /** Insertion sort in place; the result is the reference sort of the input. */
  method SortInPlace(a: array<int>)
    modifies a
    ensures a[..] == Sort(old(a[..]))
  {
    for i := 0 to a.Length
      invariant forall p, q :: 0 <= p < q < i ==> a[p] <= a[q]
      invariant multiset(a[..]) == multiset(old(a[..]))
    {
      InsertNext(a, i);
    }
    SortSpec(old(a[..]));
    SortedUnique(a[..], Sort(old(a[..])));
  }
}
