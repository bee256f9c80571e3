/** Python's stable sort, and what its callers may rely on.

    `le(x, y)` reads "x may stand before y".  A stable sort keeps the input order
    of elements that may stand on either side of each other; Python's
    `reverse=True` keeps it too, so a descending sort is `Sort` with the order
    turned round. */
module Sorting {
  import opened PythonLists

  ghost predicate TotalPreorder<T(!new)>(le: (T, T) -> bool) {
    && (forall x, y :: le(x, y) || le(y, x))
    && (forall x, y, z :: le(x, y) && le(y, z) ==> le(x, z))
  }

  ghost predicate Sorted<T>(xs: seq<T>, le: (T, T) -> bool) {
    forall i, j :: 0 <= i < j < |xs| ==> le(xs[i], xs[j])
  }

  function Insert<T>(x: T, ys: seq<T>, le: (T, T) -> bool): seq<T> {
    if ys == [] || le(x, ys[0]) then [x] + ys
    else [ys[0]] + Insert(x, ys[1..], le)
  }

  function Sort<T>(xs: seq<T>, le: (T, T) -> bool): seq<T> {
    if xs == [] then [] else Insert(xs[0], Sort(xs[1..], le), le)
  }

  lemma {:induction false} InsertKeepsElements<T>(x: T, ys: seq<T>, le: (T, T) -> bool)
    ensures multiset(Insert(x, ys, le)) == multiset{x} + multiset(ys)
  {
    if ys == [] || le(x, ys[0]) {
    } else {
      InsertKeepsElements(x, ys[1..], le);
      assert ys == [ys[0]] + ys[1..];
    }
  }

  lemma {:induction false} SortKeepsElements<T>(xs: seq<T>, le: (T, T) -> bool)
    ensures multiset(Sort(xs, le)) == multiset(xs)
    ensures |Sort(xs, le)| == |xs|
  {
    if xs != [] {
      SortKeepsElements(xs[1..], le);
      InsertKeepsElements(xs[0], Sort(xs[1..], le), le);
      assert xs == [xs[0]] + xs[1..];
    }
    assert |multiset(Sort(xs, le))| == |multiset(xs)|;
  }

  lemma {:induction false} InsertIsSorted<T(!new)>(x: T, ys: seq<T>, le: (T, T) -> bool)
    requires TotalPreorder(le) && Sorted(ys, le)
    ensures Sorted(Insert(x, ys, le), le)
  {
    if ys == [] || le(x, ys[0]) {
    } else {
      InsertIsSorted(x, ys[1..], le);
      InsertKeepsElements(x, ys[1..], le);
      var rest := Insert(x, ys[1..], le);
      forall j | 0 <= j < |rest| ensures le(ys[0], rest[j]) {
        assert rest[j] in multiset(rest);
        assert rest[j] == x || rest[j] in ys[1..];
      }
    }
  }

  lemma {:induction false} SortIsSorted<T(!new)>(xs: seq<T>, le: (T, T) -> bool)
    requires TotalPreorder(le)
    ensures Sorted(Sort(xs, le), le)
  {
    if xs != [] {
      SortIsSorted(xs[1..], le);
      InsertIsSorted(xs[0], Sort(xs[1..], le), le);
    }
  }

  lemma SortHasSameMembers<T>(xs: seq<T>, le: (T, T) -> bool)
    ensures forall x :: x in Sort(xs, le) <==> x in xs
  {
    SortKeepsElements(xs, le);
    forall x ensures x in Sort(xs, le) <==> x in xs {
      assert x in Sort(xs, le) <==> x in multiset(Sort(xs, le));
      assert x in xs <==> x in multiset(xs);
    }
  }

  predicate DistinctBy<T, K(==)>(xs: seq<T>, key: T -> K) {
    forall i, j :: 0 <= i < j < |xs| ==> key(xs[i]) != key(xs[j])
  }

  /** Filtering keeps keys distinct. */
  lemma {:induction false} FilterDistinct<T(!new), K>(xs: seq<T>, keep: T -> bool, key: T -> K)
    requires DistinctBy(xs, key)
    ensures DistinctBy(Filter(xs, keep), key)
  {
    if xs != [] {
      var front, last := xs[..|xs| - 1], xs[|xs| - 1];
      FilterDistinct(front, keep, key);
      var kept := Filter(front, keep);
      FilterMembers(front, keep);
      forall j | 0 <= j < |kept| ensures key(kept[j]) != key(last) {
        assert kept[j] in kept;
        var i :| 0 <= i < |front| && front[i] == kept[j];
        assert xs[i] == kept[j];
      }
    }
  }

  lemma {:induction false} InsertDistinct<T, K>(x: T, ys: seq<T>, le: (T, T) -> bool, key: T -> K)
    requires DistinctBy(ys, key) && forall y :: y in ys ==> key(y) != key(x)
    ensures DistinctBy(Insert(x, ys, le), key)
  {
    if ys != [] && !le(x, ys[0]) {
      InsertDistinct(x, ys[1..], le, key);
      InsertKeepsElements(x, ys[1..], le);
      var rest := Insert(x, ys[1..], le);
      forall j | 0 <= j < |rest| ensures key(ys[0]) != key(rest[j]) {
        assert rest[j] in multiset(rest);
        assert rest[j] == x || rest[j] in ys[1..];
      }
    }
  }

  /** Sorting keeps keys distinct. */
  lemma {:induction false} SortDistinct<T, K>(xs: seq<T>, le: (T, T) -> bool, key: T -> K)
    requires DistinctBy(xs, key)
    ensures DistinctBy(Sort(xs, le), key)
  {
    if xs != [] {
      SortDistinct(xs[1..], le, key);
      SortKeepsElements(xs[1..], le);
      forall y | y in Sort(xs[1..], le) ensures key(y) != key(xs[0]) {
        assert y in multiset(Sort(xs[1..], le));
        assert y in xs[1..];
        var j :| 0 <= j < |xs[1..]| && xs[1..][j] == y;
        assert xs[1..][j] == xs[j + 1];
      }
      InsertDistinct(xs[0], Sort(xs[1..], le), le, key);
    }
  }

  /** Where an element is put: behind those it may not stand before, in front of the rest. */
  lemma {:induction false} InsertPlace<T>(x: T, ys: seq<T>, le: (T, T) -> bool) returns (p: nat)
    ensures p <= |ys| && Insert(x, ys, le) == ys[..p] + [x] + ys[p..]
    ensures forall k :: 0 <= k < p ==> !le(x, ys[k])
  {
    p := 0;
    if ys != [] && !le(x, ys[0]) {
      var q := InsertPlace(x, ys[1..], le);
      p := q + 1;
    }
  }

  /** The places are 0 to n - 1, each once. */
  predicate Permutation(places: seq<nat>, n: nat) {
    && |places| == n && (forall k :: 0 <= k < n ==> places[k] < n) && (forall i :: 0 <= i < n ==> i in places)
    && (forall k, l :: 0 <= k < l < n ==> places[k] != places[l])
  }

  /** All places one on, and place 0 put in at position p. */
  function PutIn(rest: seq<nat>, p: nat): (places: seq<nat>)
    requires p <= |rest|
    ensures |places| == |rest| + 1
    ensures forall k :: 0 <= k < |places| ==>
              places[k] == if k < p then rest[k] + 1 else if k == p then 0 else rest[k - 1] + 1
  {
    seq(|rest| + 1, k requires 0 <= k <= |rest| => if k < p then rest[k] + 1 else if k == p then 0 else rest[k - 1] + 1)
  }

  lemma PutInPermutes(rest: seq<nat>, n: nat, p: nat)
    requires Permutation(rest, n) && p <= n
    ensures Permutation(PutIn(rest, p), n + 1)
  {
    var places := PutIn(rest, p);
    forall i | 0 <= i < n + 1 ensures i in places {
      if i == 0 {
        assert places[p] == 0;
      } else {
        assert i - 1 in rest;
        var k :| 0 <= k < n && rest[k] == i - 1;
        assert places[if k < p then k else k + 1] == i;
      }
    }
  }

  ghost predicate TakenFrom<T>(sorted: seq<T>, xs: seq<T>, places: seq<nat>) {
    && |sorted| == |xs| == |places|
    && forall k :: 0 <= k < |sorted| ==> places[k] < |xs| && sorted[k] == xs[places[k]]
  }

  ghost predicate InInputOrder<T>(sorted: seq<T>, places: seq<nat>, le: (T, T) -> bool)
    requires |sorted| == |places|
  {
    forall k, l :: 0 <= k < l < |sorted| && le(sorted[l], sorted[k]) ==> places[k] < places[l]
  }

  ghost predicate StablyFrom<T>(sorted: seq<T>, xs: seq<T>, places: seq<nat>, le: (T, T) -> bool) {
    TakenFrom(sorted, xs, places) && Permutation(places, |xs|) && InInputOrder(sorted, places, le)
  }

  lemma InsertTaken<T>(x: T, xs: seq<T>, sorted: seq<T>, rest: seq<nat>, p: nat)
    requires TakenFrom(sorted, xs, rest) && p <= |xs|
    ensures TakenFrom(sorted[..p] + [x] + sorted[p..], [x] + xs, PutIn(rest, p))
  {
  }

  lemma InsertInOrder<T>(x: T, sorted: seq<T>, rest: seq<nat>, p: nat, le: (T, T) -> bool)
    requires |sorted| == |rest| && p <= |rest| && InInputOrder(sorted, rest, le)
    requires forall k :: 0 <= k < p ==> !le(x, sorted[k])
    ensures InInputOrder(sorted[..p] + [x] + sorted[p..], PutIn(rest, p), le)
  {
  }

  lemma {:induction false} SortPlaces<T>(xs: seq<T>, le: (T, T) -> bool) returns (places: seq<nat>)
    ensures StablyFrom(Sort(xs, le), xs, places, le)
  {
    places := [];
    if xs != [] {
      var rest := SortPlaces(xs[1..], le);
      var p := InsertPlace(xs[0], Sort(xs[1..], le), le);
      InsertTaken(xs[0], xs[1..], Sort(xs[1..], le), rest, p);
      InsertInOrder(xs[0], Sort(xs[1..], le), rest, p, le);
      PutInPermutes(rest, |xs| - 1, p);
      places := PutIn(rest, p);
      assert [xs[0]] + xs[1..] == xs;
    }
  }

  /** A list already in order is returned as it is. */
  lemma {:induction false} SortOfSorted<T>(xs: seq<T>, le: (T, T) -> bool)
    requires Sorted(xs, le)
    ensures Sort(xs, le) == xs
  {
    if xs != [] {
      SortOfSorted(xs[1..], le);
    }
  }

  lemma SortedHeadFirst<T(!new)>(a: seq<T>, le: (T, T) -> bool, x: T)
    requires TotalPreorder(le) && Sorted(a, le) && x in a
    ensures le(a[0], x)
  {
    var i :| 0 <= i < |a| && a[i] == x;
  }

  lemma SameHead<T(!new)>(a: seq<T>, b: seq<T>, le: (T, T) -> bool)
    requires TotalPreorder(le) && forall x, y :: le(x, y) && le(y, x) ==> x == y
    requires Sorted(a, le) && Sorted(b, le) && multiset(a) == multiset(b) && a != []
    ensures b != [] && a[0] == b[0]
  {
    assert a[0] in multiset(b);
    assert b[0] in multiset(a);
    SortedHeadFirst(b, le, a[0]);
    SortedHeadFirst(a, le, b[0]);
  }

  /** Under a total order two orderings of the same elements are the same list. */
  lemma {:induction false} SortedUnique<T(!new)>(a: seq<T>, b: seq<T>, le: (T, T) -> bool)
    requires TotalPreorder(le) && forall x, y :: le(x, y) && le(y, x) ==> x == y
    requires Sorted(a, le) && Sorted(b, le) && multiset(a) == multiset(b)
    ensures a == b
  {
    if a == [] {
      assert |multiset(b)| == 0;
    } else {
      SameHead(a, b, le);
      TailElements(a);
      TailElements(b);
      SortedTail(a, le);
      SortedTail(b, le);
      SortedUnique(a[1..], b[1..], le);
      HeadAndTail(a, b);
    }
  }

  lemma SortedTail<T>(a: seq<T>, le: (T, T) -> bool)
    requires Sorted(a, le) && a != []
    ensures Sorted(a[1..], le)
  {
  }

  lemma HeadAndTail<T>(a: seq<T>, b: seq<T>)
    requires a != [] && b != [] && a[0] == b[0] && a[1..] == b[1..]
    ensures a == b
  {
    assert a == [a[0]] + a[1..] && b == [b[0]] + b[1..];
  }

  lemma TailElements<T>(a: seq<T>)
    requires a != []
    ensures multiset(a[1..]) == multiset(a) - multiset{a[0]}
  {
    assert a == [a[0]] + a[1..];
  }

  /** Under a total order sorting depends only on which elements there are. */
  lemma SortIsCanonical<T(!new)>(a: seq<T>, b: seq<T>, le: (T, T) -> bool)
    requires TotalPreorder(le) && forall x, y :: le(x, y) && le(y, x) ==> x == y
    requires multiset(a) == multiset(b)
    ensures Sort(a, le) == Sort(b, le)
  {
    SortIsSorted(a, le);
    SortIsSorted(b, le);
    SortKeepsElements(a, le);
    SortKeepsElements(b, le);
    SortedUnique(Sort(a, le), Sort(b, le), le);
  }

  // ----- orders -----

  predicate Descending(a: real, b: real) { a >= b }

  /** Python's `<=` on str: code point by code point, a prefix first. */
  predicate StringLe(a: string, b: string) {
    if a == "" then true
    else if b == "" then false
    else if a[0] != b[0] then a[0] < b[0]
    else StringLe(a[1..], b[1..])
  }

  /** One string sorts before another when it starts it, or has the lesser character where the
      two first differ. */
  lemma {:induction false} StringLeIff(a: string, b: string)
    ensures StringLe(a, b) <==> a <= b || exists i :: FirstDifference(a, b, i) && a[i] < b[i]
  {
    if a != "" && b != "" {
      if a[0] == b[0] {
        StringLeIff(a[1..], b[1..]);
        assert a == [a[0]] + a[1..] && b == [b[0]] + b[1..];
        assert a <= b <==> a[1..] <= b[1..];
        forall i | FirstDifference(a[1..], b[1..], i) ensures FirstDifference(a, b, i + 1) {
          assert a[..i + 1] == [a[0]] + a[1..][..i] && b[..i + 1] == [b[0]] + b[1..][..i];
        }
        forall i | FirstDifference(a, b, i) ensures i > 0 && FirstDifference(a[1..], b[1..], i - 1) {
          assert a[1..][..i - 1] == a[..i][1..] && b[1..][..i - 1] == b[..i][1..];
        }
      } else {
        assert FirstDifference(a, b, 0);
        forall i | FirstDifference(a, b, i) ensures i == 0 { SameBefore(a, b, i); }
      }
    }
  }

  lemma SameBefore(a: string, b: string, i: int)
    requires FirstDifference(a, b, i)
    ensures i > 0 ==> a[0] == b[0]
  {
    if i > 0 { assert a[0] == a[..i][0] && b[0] == b[..i][0]; }
  }

  predicate FirstDifference(a: string, b: string, i: int) {
    0 <= i < |a| && i < |b| && a[..i] == b[..i] && a[i] != b[i]
  }

  lemma {:induction false} StringLeTotal(a: string, b: string)
    ensures StringLe(a, b) || StringLe(b, a)
  {
    if a != "" && b != "" && a[0] == b[0] { StringLeTotal(a[1..], b[1..]); }
  }

  lemma {:induction false} StringLeTransitive(a: string, b: string, c: string)
    requires StringLe(a, b) && StringLe(b, c)
    ensures StringLe(a, c)
  {
    if a != "" && b != "" && c != "" && a[0] == b[0] == c[0] {
      StringLeTransitive(a[1..], b[1..], c[1..]);
    }
  }

  lemma {:induction false} StringLeAntisymmetric(a: string, b: string)
    requires StringLe(a, b) && StringLe(b, a)
    ensures a == b
  {
    if a != "" && b != "" {
      StringLeAntisymmetric(a[1..], b[1..]);
      assert a == [a[0]] + a[1..];
      assert b == [b[0]] + b[1..];
    }
  }

  lemma StringLeIsTotalOrder()
    ensures TotalPreorder(StringLe)
    ensures forall a, b :: StringLe(a, b) && StringLe(b, a) ==> a == b
  {
    forall a, b ensures StringLe(a, b) || StringLe(b, a) { StringLeTotal(a, b); }
    forall a, b, c | StringLe(a, b) && StringLe(b, c) ensures StringLe(a, c) { StringLeTransitive(a, b, c); }
    forall a, b | StringLe(a, b) && StringLe(b, a) ensures a == b { StringLeAntisymmetric(a, b); }
  }

  predicate StringLt(a: string, b: string) { !StringLe(b, a) }

  /** Python's `<=` on pairs of str. */
  predicate PairLe(a: (string, string), b: (string, string)) {
    if a.0 == b.0 then StringLe(a.1, b.1) else StringLe(a.0, b.0)
  }

  lemma PairLeIsTotalOrder()
    ensures TotalPreorder(PairLe)
    ensures forall a, b :: PairLe(a, b) && PairLe(b, a) ==> a == b
  {
    StringLeIsTotalOrder();
  }
}
