/** How many elements a set has. */
module SetSizes {

  /** The keys of the first n elements. */
  function Image<T, K>(xs: seq<T>, n: nat, key: T -> K): set<K>
    requires n <= |xs|
  {
    set i: nat | i < n :: key(xs[i])
  }

  lemma {:induction false} ImageSize<T, K>(xs: seq<T>, n: nat, key: T -> K)
    requires n <= |xs|
    ensures |Image(xs, n, key)| <= n
    ensures (forall i, j :: 0 <= i < j < n ==> key(xs[i]) != key(xs[j])) ==> |Image(xs, n, key)| == n
  {
    if n > 0 {
      ImageSize(xs, n - 1, key);
      assert Image(xs, n, key) == Image(xs, n - 1, key) + {key(xs[n - 1])};
    }
  }

  function Tagged<T, U>(xs: set<T>, tag: T -> U): set<U> {
    set x | x in xs :: tag(x)
  }

  lemma {:induction false} TaggedSize<T(!new), U>(xs: set<T>, tag: T -> U)
    requires forall x, y :: x in xs && y in xs && tag(x) == tag(y) ==> x == y
    ensures |Tagged(xs, tag)| == |xs|
    decreases |xs|
  {
    if xs != {} {
      var x :| x in xs;
      TaggedSize(xs - {x}, tag);
      assert Tagged(xs, tag) == Tagged(xs - {x}, tag) + {tag(x)};
      assert tag(x) !in Tagged(xs - {x}, tag);
    }
  }

  lemma SubsetSize<T>(a: set<T>, b: set<T>)
    requires a <= b
    ensures |a| <= |b|
  {
    assert b == a + (b - a);
  }
}
