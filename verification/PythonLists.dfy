/** Python list slicing, with its treatment of negative bounds. */
module PythonLists {

  /** The index at which Python's xs[k:] starts in a list of length n. */
  function SliceStart(n: nat, k: int): (start: nat)
    ensures start <= n
    ensures k >= 0 && k <= n ==> start == k
    ensures k < 0 && -k <= n ==> n - start == -k
  {
    if k < 0 then (if n + k < 0 then 0 else n + k)
    else if k > n then n else k
  }

  /** Python's xs[:k]. */
  function Take<T>(xs: seq<T>, k: int): (r: seq<T>)
    ensures r <= xs
    ensures k >= 0 ==> |r| == if k <= |xs| then k else |xs|
  {
    xs[..SliceStart(|xs|, k)]
  }

  /** Python's max on two integers. */
  function Max(a: int, b: int): int {
    if a >= b then a else b
  }

  /** Python's min on two integers. */
  function Min(a: int, b: int): int {
    if a <= b then a else b
  }

  /** Python's xs[start:start + size] for bounds that are not negative. */
  function Window<T>(xs: seq<T>, start: nat, size: nat): (r: seq<T>)
    ensures |r| <= size
    ensures start + size <= |xs| ==> |r| == size
  {
    xs[Min(start, |xs|)..Min(start + size, |xs|)]
  }

  /** A list comprehension with a condition. */
  function Filter<T>(xs: seq<T>, keep: T -> bool): (r: seq<T>)
    ensures |r| <= |xs|
  {
    if xs == [] then []
    else Filter(xs[..|xs| - 1], keep) + if keep(xs[|xs| - 1]) then [xs[|xs| - 1]] else []
  }

  /** Filtering keeps every element as often as it was there, or not at all. */
  lemma {:induction false} FilterCounts<T>(xs: seq<T>, keep: T -> bool, x: T)
    ensures multiset(Filter(xs, keep))[x] == if keep(x) then multiset(xs)[x] else 0
  {
    if xs != [] {
      FilterCounts(xs[..|xs| - 1], keep, x);
      assert xs == xs[..|xs| - 1] + [xs[|xs| - 1]];
    }
  }

  lemma {:induction false} FilterAppend<T>(a: seq<T>, b: seq<T>, keep: T -> bool)
    ensures Filter(a + b, keep) == Filter(a, keep) + Filter(b, keep)
  {
    if b == [] {
      assert a + b == a;
    } else {
      FilterAppend(a, b[..|b| - 1], keep);
      assert (a + b)[..|a + b| - 1] == a + b[..|b| - 1];
    }
  }

  lemma {:induction false} FilterMembers<T(!new)>(xs: seq<T>, keep: T -> bool)
    ensures forall x :: x in Filter(xs, keep) <==> x in xs && keep(x)
  {
    if xs != [] {
      FilterMembers(xs[..|xs| - 1], keep);
      assert xs == xs[..|xs| - 1] + [xs[|xs| - 1]];
    }
  }

  lemma {:induction false} FilterSame<T>(xs: seq<T>, p: T -> bool, q: T -> bool)
    requires forall x :: x in xs ==> p(x) == q(x)
    ensures Filter(xs, p) == Filter(xs, q)
  {
    if xs != [] { FilterSame(xs[..|xs| - 1], p, q); }
  }

  /** A list comprehension with two loops: what f makes of each element, in order. */
  function Concat<A, B>(xs: seq<A>, f: A -> seq<B>): seq<B> {
    if xs == [] then [] else Concat(xs[..|xs| - 1], f) + f(xs[|xs| - 1])
  }

  lemma {:induction false} ConcatAppend<A, B>(a: seq<A>, b: seq<A>, f: A -> seq<B>)
    ensures Concat(a + b, f) == Concat(a, f) + Concat(b, f)
  {
    if b == [] {
      assert a + b == a;
    } else {
      ConcatAppend(a, b[..|b| - 1], f);
      assert (a + b)[..|a + b| - 1] == a + b[..|b| - 1];
    }
  }

  /** What f makes of one element stands behind what it makes of the ones before. */
  lemma ConcatPart<A, B>(xs: seq<A>, i: nat, f: A -> seq<B>)
    requires i < |xs|
    ensures var start := |Concat(xs[..i], f)|;
            start + |f(xs[i])| <= |Concat(xs, f)| && Concat(xs, f)[start..start + |f(xs[i])|] == f(xs[i])
  {
    var before, one, rest := xs[..i], [xs[i]], xs[i + 1..];
    assert xs == before + (one + rest);
    ConcatAppend(before, one + rest, f);
    ConcatAppend(one, rest, f);
    ConcatOne(xs[i], f);
    Middle(Concat(before, f), f(xs[i]), Concat(rest, f));
  }

  lemma ConcatOne<A, B>(x: A, f: A -> seq<B>)
    ensures Concat([x], f) == f(x)
  {
    assert [x][..0] == [];
  }

  lemma Middle<T>(a: seq<T>, b: seq<T>, c: seq<T>)
    ensures (a + (b + c))[|a|..|a| + |b|] == b
  {
  }
}
