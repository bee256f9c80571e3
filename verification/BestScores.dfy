/** The best k of a list of scores, told by how many scores reach each height. */
module BestScores {
  import opened PythonLists
  import opened Sorting

  function Top(xs: seq<real>, k: nat): (top: seq<real>) {
    Take(Sort(xs, Descending), k)
  }

  function CountAtLeast(xs: seq<real>, t: real): nat {
    if xs == [] then 0 else (if xs[0] >= t then 1 else 0) + CountAtLeast(xs[1..], t)
  }

  lemma {:induction false} CountAppend(a: seq<real>, b: seq<real>, t: real)
    ensures CountAtLeast(a + b, t) == CountAtLeast(a, t) + CountAtLeast(b, t)
  {
    if a == [] {
      assert a + b == b;
    } else {
      assert (a + b)[1..] == a[1..] + b;
      CountAppend(a[1..], b, t);
    }
  }

  lemma {:induction false} CountInsert(x: real, ys: seq<real>, t: real)
    ensures CountAtLeast(Insert(x, ys, Descending), t) == CountAtLeast(ys, t) + if x >= t then 1 else 0
  {
    if ys == [] || Descending(x, ys[0]) {
      assert ([x] + ys)[1..] == ys;
    } else {
      CountInsert(x, ys[1..], t);
      assert ([ys[0]] + Insert(x, ys[1..], Descending))[1..] == Insert(x, ys[1..], Descending);
    }
  }

  lemma {:induction false} CountSort(xs: seq<real>, t: real)
    ensures CountAtLeast(Sort(xs, Descending), t) == CountAtLeast(xs, t)
  {
    if xs != [] {
      CountSort(xs[1..], t);
      CountInsert(xs[0], Sort(xs[1..], Descending), t);
    }
  }

  /** In a descending list the scores that reach t stand in front. */
  lemma {:induction false} CountSorted(s: seq<real>, t: real, i: nat)
    requires Sorted(s, Descending) && i < |s|
    ensures CountAtLeast(s, t) > i <==> s[i] >= t
  {
    if i > 0 {
      CountSorted(s[1..], t, i - 1);
    } else if |s| > 1 {
      CountSorted(s[1..], t, 0);
    }
  }

  lemma {:induction false} CountTake(s: seq<real>, t: real, k: nat)
    requires Sorted(s, Descending)
    ensures CountAtLeast(Take(s, k), t) == Min(k, CountAtLeast(s, t))
  {
    if s != [] && k > 0 {
      CountTake(s[1..], t, k - 1);
      assert Take(s, k)[1..] == Take(s[1..], k - 1);
      CountSorted(s, t, 0);
    }
  }

  lemma CountTop(xs: seq<real>, t: real, k: nat)
    ensures CountAtLeast(Top(xs, k), t) == Min(k, CountAtLeast(xs, t))
    ensures |Top(xs, k)| == Min(k, |xs|)
    ensures Sorted(Top(xs, k), Descending)
  {
    SortIsSorted(xs, Descending);
    SortKeepsElements(xs, Descending);
    CountSort(xs, t);
    CountTake(Sort(xs, Descending), t, k);
  }

  lemma SameCountsSameList(a: seq<real>, b: seq<real>)
    requires Sorted(a, Descending) && Sorted(b, Descending) && |a| == |b|
    requires forall t :: CountAtLeast(a, t) == CountAtLeast(b, t)
    ensures a == b
  {
    forall i | 0 <= i < |a| ensures a[i] == b[i] {
      CountSorted(a, a[i], i);
      CountSorted(b, a[i], i);
      CountSorted(a, b[i], i);
      CountSorted(b, b[i], i);
    }
  }

  /** Two lists have the same top k when, cut to k, they count the same at every score. */
  lemma SameTop(a: seq<real>, b: seq<real>, k: nat)
    requires Min(k, |a|) == Min(k, |b|)
    requires forall t :: Min(k, CountAtLeast(a, t)) == Min(k, CountAtLeast(b, t))
    ensures Top(a, k) == Top(b, k)
  {
    forall t ensures CountAtLeast(Top(a, k), t) == CountAtLeast(Top(b, k), t) {
      CountTop(a, t, k);
      CountTop(b, t, k);
    }
    CountTop(a, 0.0, k);
    CountTop(b, 0.0, k);
    SameCountsSameList(Top(a, k), Top(b, k));
  }

  /** The top k of two lists together depends only on the top k of each. */
  lemma TopOfTops(a: seq<real>, a': seq<real>, b: seq<real>, b': seq<real>, k: nat)
    requires Top(a, k) == Top(a', k) && Top(b, k) == Top(b', k)
    ensures Top(a + b, k) == Top(a' + b', k)
  {
    forall t ensures Min(k, CountAtLeast(a + b, t)) == Min(k, CountAtLeast(a' + b', t)) {
      CountTop(a, t, k);
      CountTop(a', t, k);
      CountTop(b, t, k);
      CountTop(b', t, k);
      CountAppend(a, b, t);
      CountAppend(a', b', t);
    }
    CountTop(a, 0.0, k);
    CountTop(a', 0.0, k);
    CountTop(b, 0.0, k);
    CountTop(b', 0.0, k);
    SameTop(a + b, a' + b', k);
  }

  lemma TopTwice(xs: seq<real>, k: nat)
    ensures Top(Top(xs, k), k) == Top(xs, k)
  {
    CountTop(xs, 0.0, k);
    SortOfSorted(Top(xs, k), Descending);
  }
}
