/** Which retention settings make pruning well behaved: exactly those that are not negative. */
module PruneSettings {
  import opened PythonLists
  import opened Sorting
  import opened CatalogSpec

  /** A document with n versions, ingested at the same time, each id a letter longer than the one before. */
  function VersionId(i: nat): (id: string)
    ensures |id| == i + 1
  {
    seq(i + 1, _ => 'a')
  }

  const DOC := DocKey("t", "c", "d")

  function Rung(i: nat): VerKey { VerKey(DOC, VersionId(i)) }

  function Rungs(lo: nat, hi: nat): set<VerKey> {
    set i: nat | lo <= i < hi :: Rung(i)
  }

  function Ladder(lo: nat, n: nat): Catalog
    requires lo < n
  {
    Catalog(map[DOC := Document("d", VersionId(n - 1), "")],
            map key | key in Rungs(lo, n) :: Version(1, "", ""))
  }

  lemma RungsDistinct(i: nat, j: nat)
    ensures Rung(i) == Rung(j) <==> i == j
  {
    if Rung(i) == Rung(j) { assert |VersionId(i)| == |VersionId(j)|; }
  }

  lemma {:induction false} RungsSize(lo: nat, hi: nat)
    requires lo <= hi
    ensures |Rungs(lo, hi)| == hi - lo
    decreases hi - lo
  {
    if lo < hi {
      RungsSize(lo + 1, hi);
      assert Rungs(lo, hi) == {Rung(lo)} + Rungs(lo + 1, hi);
      forall j | lo + 1 <= j < hi ensures Rung(j) != Rung(lo) { RungsDistinct(j, lo); }
      assert Rung(lo) !in Rungs(lo + 1, hi);
    } else {
      assert Rungs(lo, hi) == {};
    }
  }

  lemma {:induction false} LongerIsGreater(i: nat, j: nat)
    ensures StringLe(VersionId(i), VersionId(j)) <==> i <= j
  {
    var a, b := VersionId(i), VersionId(j);
    if i > 0 && j > 0 {
      assert a[1..] == VersionId(i - 1) && b[1..] == VersionId(j - 1);
      LongerIsGreater(i - 1, j - 1);
    } else if i == 0 {
      assert a[1..] == "";
    } else {
      assert b[1..] == "" && a[1..] != "";
    }
  }

  lemma NewerRungs(lo: nat, n: nat, i: nat)
    requires lo <= i < n
    ensures Rung(i) in Ladder(lo, n).versions
    ensures |Newer(Ladder(lo, n).versions, Rung(i))| == n - 1 - i
    ensures |VersionsOf(Ladder(lo, n).versions, DOC)| == n - lo
  {
    var versions := Ladder(lo, n).versions;
    assert Rung(i) in Rungs(lo, n);
    forall key ensures key in Newer(versions, Rung(i)) <==> key in Rungs(i + 1, n) {
      if key in versions {
        var j: nat :| lo <= j < n && key == Rung(j);
        LongerIsGreater(i, j);
        RungsDistinct(i, j);
        if key in Rungs(i + 1, n) {
          var k: nat :| i + 1 <= k < n && key == Rung(k);
          RungsDistinct(j, k);
        } else {
          assert !(i + 1 <= j);
        }
      }
    }
    assert Newer(versions, Rung(i)) == Rungs(i + 1, n);
    assert VersionsOf(versions, DOC) == Rungs(lo, n);
    RungsSize(i + 1, n);
    RungsSize(lo, n);
  }

  /** With keep_count -k the k oldest of k + 2 versions are prunable. */
  lemma FirstPruneTakes(k: nat, key: VerKey)
    requires k >= 1
    ensures Prunable(Ladder(0, k + 2), 0 - k, key) <==> key in Rungs(0, k)
  {
    if key in Ladder(0, k + 2).versions {
      var i: nat :| i < k + 2 && key == Rung(i);
      FirstPruneTakesRung(k, i);
      RungInRungs(0, k, i);
    }
  }

  lemma FirstPruneTakesRung(k: nat, i: nat)
    requires k >= 1 && i < k + 2
    ensures Prunable(Ladder(0, k + 2), 0 - k, Rung(i)) <==> i < k
  {
    NewerRungs(0, k + 2, i);
    RungsDistinct(i, k + 1);
  }

  lemma RungInRungs(lo: nat, hi: nat, i: nat)
    ensures Rung(i) in Rungs(lo, hi) <==> lo <= i < hi
  {
    if Rung(i) in Rungs(lo, hi) {
      var j: nat :| lo <= j < hi && Rung(i) == Rung(j);
      RungsDistinct(i, j);
    }
  }

  lemma PruneLeavesTwo(k: nat)
    requires k >= 1
    ensures Without(Ladder(0, k + 2), Rungs(0, k)) == Ladder(k, k + 2)
  {
    var n := k + 2;
    forall key ensures key in Rungs(k, n) <==> key in Rungs(0, n) && key !in Rungs(0, k) {}
    assert Without(Ladder(0, n), Rungs(0, k)).versions == Ladder(k, n).versions;
  }

  lemma FirstPruneSet(k: nat)
    requires k >= 1
    ensures PrunableSet(Ladder(0, k + 2), 0 - k) == Rungs(0, k)
  {
    forall key ensures key in PrunableSet(Ladder(0, k + 2), 0 - k) <==> key in Rungs(0, k) { FirstPruneTakes(k, key); }
  }

  /** ... and once they are gone, the older of the two left is. */
  lemma SecondPruneTakes(k: nat)
    requires k >= 1
    ensures Prunable(Ladder(k, k + 2), 0 - k, Rung(k))
  {
    NewerRungs(k, k + 2, k);
    RungsDistinct(k, k + 1);
  }

  /** The SQL rule would have taken it the first time. */
  lemma SqlTakesMore(k: nat)
    requires k >= 1
    ensures !Prunable(Ladder(0, k + 2), 0 - k, Rung(k)) && PrunableBySql(Ladder(0, k + 2), 0 - k, Rung(k))
  {
    NewerRungs(0, k + 2, k);
    RungsDistinct(k, k + 1);
  }

  ghost predicate SecondPruneAlwaysIdle(keepCount: int) {
    forall cat :: PrunableSet(Without(cat, PrunableSet(cat, keepCount)), keepCount) == {}
  }

  ghost predicate StoresAlwaysAgree(keepCount: int) {
    forall cat, key :: Prunable(cat, keepCount, key) <==> PrunableBySql(cat, keepCount, key)
  }

  /** A second prune is idle on every catalog exactly when keep_count is not negative. */
  lemma SecondPruneIdleIff(keepCount: int)
    ensures SecondPruneAlwaysIdle(keepCount) <==> keepCount >= 0
  {
    if keepCount >= 0 {
      forall cat ensures PrunableSet(Without(cat, PrunableSet(cat, keepCount)), keepCount) == {} {
        SecondPruneFindsNothing(cat, keepCount);
      }
    } else {
      var k := -keepCount;
      FirstPruneSet(k);
      PruneLeavesTwo(k);
      SecondPruneTakes(k);
      FoundAgain(Ladder(0, k + 2), Rungs(0, k), Ladder(k, k + 2), keepCount, Rung(k));
    }
  }

  lemma FoundAgain(cat: Catalog, gone: set<VerKey>, after: Catalog, keepCount: int, key: VerKey)
    requires PrunableSet(cat, keepCount) == gone && Without(cat, gone) == after && Prunable(after, keepCount, key)
    ensures !SecondPruneAlwaysIdle(keepCount)
  {
    assert key in PrunableSet(Without(cat, PrunableSet(cat, keepCount)), keepCount);
  }

  /** The two stores prune alike on every catalog exactly when keep_count is not negative. */
  lemma StoresAgreeIff(keepCount: int)
    ensures StoresAlwaysAgree(keepCount) <==> keepCount >= 0
  {
    if keepCount >= 0 {
      forall cat, key ensures Prunable(cat, keepCount, key) <==> PrunableBySql(cat, keepCount, key) {
        StoresAgree(cat, keepCount, key);
      }
    } else {
      SqlTakesMore(-keepCount);
    }
  }
}
