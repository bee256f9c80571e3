/** The hybrid search of query/app/clients/qdrant.py: two rankings of the chunks that pass
    the filter, by dense and by sparse similarity, each cut to twice the recall limit and
    fused by rank.  A chunk's score depends on what else passes the filter, so searching
    collections one by one is not searching them together. */
module RankFusion {
  import opened PythonLists
  import opened Options
  import opened Sorting
  import opened Reranking
  import opened BestScores
  import opened MultiTopK
  import opened SearchStrategies

  /** The chunks that pass all filters but the one by collection: all of them by dense similarity,
      and those that share a term with the query by sparse similarity. */
  datatype Rankings = Rankings(dense: seq<Chunk>, sparse: seq<Chunk>)

  ghost predicate WellRanked(r: Rankings) {
    && DistinctBy(r.dense, (c: Chunk) => c.uuid)
    && DistinctBy(r.sparse, (c: Chunk) => c.uuid)
    && forall c :: c in r.sparse ==> c in r.dense
  }

  /** What a place in a ranking is worth. */
  type Weight = nat -> real

  ghost predicate Falling(w: Weight) {
    forall i, j :: i < j ==> w(i) > w(j) > 0.0
  }

  /** Reciprocal rank fusion. */
  function Reciprocal(k: nat): Weight {
    (place: nat) => 1.0 / (k + place + 1) as real
  }

  lemma ReciprocalFalls(k: nat)
    ensures Falling(Reciprocal(k))
  {
    forall i: nat, j: nat | i < j ensures Reciprocal(k)(i) > Reciprocal(k)(j) > 0.0 {
      var a, b := (k + i + 1) as real, (k + j + 1) as real;
      assert 1.0 / a - 1.0 / b == (b - a) / (a * b);
    }
  }

  function Scoped(ranking: seq<Chunk>, ids: seq<string>): seq<Chunk> {
    Filter(ranking, (c: Chunk) => c.collection in ids)
  }

  function Prefetched(ranking: seq<Chunk>, ids: seq<string>, limit: nat): seq<Chunk> {
    Take(Scoped(ranking, ids), limit)
  }

  /** A chunk's place in a list that holds it. */
  function Place(chunks: seq<Chunk>, c: Chunk): (i: nat)
    requires c in chunks
    ensures i < |chunks| && chunks[i] == c
  {
    if c in chunks[..|chunks| - 1] then Place(chunks[..|chunks| - 1], c) else |chunks| - 1
  }

  function Share(chunks: seq<Chunk>, c: Chunk, w: Weight): real {
    if c in chunks then w(Place(chunks, c)) else 0.0
  }

  function FusedScore(r: Rankings, recallLimit: nat, w: Weight): Scoring {
    (asked: seq<string>, c: Chunk) =>
      var dense, sparse := Prefetched(r.dense, asked, 2 * recallLimit), Prefetched(r.sparse, asked, 2 * recallLimit);
      if c in dense || c in sparse then Some(Share(dense, c, w) + Share(sparse, c, w)) else None
  }

  lemma FusionFilters(r: Rankings, recallLimit: nat, w: Weight)
    ensures Filters(FusedScore(r, recallLimit, w))
  {
    forall asked, c | FusedScore(r, recallLimit, w)(asked, c).Some? ensures c.collection in asked {
      FilterMembers(r.dense, (x: Chunk) => x.collection in asked);
      FilterMembers(r.sparse, (x: Chunk) => x.collection in asked);
      assert c in Scoped(r.dense, asked) || c in Scoped(r.sparse, asked);
    }
  }

  // ----- a chunk's place among fewer chunks -----

  lemma PlaceUnique(chunks: seq<Chunk>, c: Chunk, i: nat)
    requires DistinctBy(chunks, (x: Chunk) => x.uuid) && i < |chunks| && chunks[i] == c
    ensures Place(chunks, c) == i
  {
  }

  /** How many of the chunks in scope rank before c. */
  function Before(ranking: seq<Chunk>, c: Chunk, ids: seq<string>): nat
    requires c in ranking
  {
    |Scoped(ranking[..Place(ranking, c)], ids)|
  }

  lemma ScopedAround(ranking: seq<Chunk>, c: Chunk, ids: seq<string>)
    requires c in ranking && c.collection in ids
    ensures |Scoped(ranking, ids)| > Before(ranking, c, ids) && Scoped(ranking, ids)[Before(ranking, c, ids)] == c
  {
    var i := Place(ranking, c);
    var inScope := (x: Chunk) => x.collection in ids;
    assert ranking == ranking[..i] + ([c] + ranking[i + 1..]);
    FilterAppend(ranking[..i], [c] + ranking[i + 1..], inScope);
    FilterAppend([c], ranking[i + 1..], inScope);
    assert [c][..0] == [];
    assert Filter([c], inScope) == [c];
  }

  lemma CutPlace(chunks: seq<Chunk>, c: Chunk, n: nat, limit: nat)
    requires DistinctBy(chunks, (x: Chunk) => x.uuid) && n < |chunks| && chunks[n] == c
    ensures c in Take(chunks, limit) <==> n < limit
    ensures n < limit ==> Place(Take(chunks, limit), c) == n
  {
    var kept := Take(chunks, limit);
    if n < limit {
      assert kept[n] == c;
      PlaceUnique(kept, c, n);
    }
  }

  /** A chunk's place in what is prefetched is the number of chunks in scope before it. */
  lemma ScopedPlace(ranking: seq<Chunk>, c: Chunk, ids: seq<string>, limit: nat, w: Weight)
    requires DistinctBy(ranking, (x: Chunk) => x.uuid) && c in ranking && c.collection in ids
    ensures c in Prefetched(ranking, ids, limit) <==> Before(ranking, c, ids) < limit
    ensures Share(Prefetched(ranking, ids, limit), c, w) ==
            if Before(ranking, c, ids) < limit then w(Before(ranking, c, ids)) else 0.0
  {
    ScopedAround(ranking, c, ids);
    FilterDistinct(ranking, (x: Chunk) => x.collection in ids, (x: Chunk) => x.uuid);
    CutPlace(Scoped(ranking, ids), c, Before(ranking, c, ids), limit);
  }

  lemma NotRanked(ranking: seq<Chunk>, c: Chunk, ids: seq<string>, limit: nat)
    requires c !in ranking
    ensures c !in Prefetched(ranking, ids, limit)
  {
    FilterMembers(ranking, (x: Chunk) => x.collection in ids);
    assert c in Prefetched(ranking, ids, limit) ==> c in Scoped(ranking, ids);
  }

  lemma {:induction false} FewerInScope(ranking: seq<Chunk>, id: string, ids: seq<string>)
    requires id in ids
    ensures |Scoped(ranking, [id])| <= |Scoped(ranking, ids)|
    ensures (exists c :: c in ranking && c.collection in ids && c.collection != id) ==>
              |Scoped(ranking, [id])| < |Scoped(ranking, ids)|
  {
    if ranking != [] {
      FewerInScope(ranking[..|ranking| - 1], id, ids);
      assert ranking == ranking[..|ranking| - 1] + [ranking[|ranking| - 1]];
    }
  }

  /** What c gets from a ranking: the worth of the number of chunks in scope before it, when that
      number is below twice the recall limit. */
  function RankShare(ranking: seq<Chunk>, c: Chunk, ids: seq<string>, recallLimit: nat, w: Weight): Option<real> {
    if c in ranking && Before(ranking, c, ids) < recallLimit + recallLimit then Some(w(Before(ranking, c, ids)))
    else None
  }

  /** A chunk in scope is found when either ranking gives it a share, and scores the sum. */
  lemma FusedScoreIsSum(r: Rankings, c: Chunk, ids: seq<string>, recallLimit: nat, w: Weight)
    requires WellRanked(r) && c.collection in ids
    ensures FusedScore(r, recallLimit, w)(ids, c) ==
            match (RankShare(r.dense, c, ids, recallLimit, w), RankShare(r.sparse, c, ids, recallLimit, w))
            case (None, None) => None
            case (Some(x), None) => Some(x)
            case (None, Some(y)) => Some(y)
            case (Some(x), Some(y)) => Some(x + y)
  {
    ShareIs(r.dense, c, ids, recallLimit, w);
    ShareIs(r.sparse, c, ids, recallLimit, w);
  }

  lemma ShareIs(ranking: seq<Chunk>, c: Chunk, ids: seq<string>, recallLimit: nat, w: Weight)
    requires DistinctBy(ranking, (x: Chunk) => x.uuid) && c.collection in ids
    ensures c in Prefetched(ranking, ids, 2 * recallLimit) <==> RankShare(ranking, c, ids, recallLimit, w).Some?
    ensures Share(Prefetched(ranking, ids, 2 * recallLimit), c, w) ==
            if RankShare(ranking, c, ids, recallLimit, w).Some? then RankShare(ranking, c, ids, recallLimit, w).value
            else 0.0
  {
    if c in ranking {
      ScopedPlace(ranking, c, ids, 2 * recallLimit, w);
    } else {
      NotRanked(ranking, c, ids, 2 * recallLimit);
    }
  }

  /** Fewer chunks rank before c when only its own collection is searched. */
  lemma PlaceImproves(ranking: seq<Chunk>, c: Chunk, ids: seq<string>)
    requires c in ranking && c.collection in ids
    ensures Before(ranking, c, [c.collection]) <= Before(ranking, c, ids)
    ensures (exists d :: d in ranking[..Place(ranking, c)] && d.collection in ids && d.collection != c.collection) ==>
              Before(ranking, c, [c.collection]) < Before(ranking, c, ids)
  {
    FewerInScope(ranking[..Place(ranking, c)], c.collection, ids);
  }

  lemma Worth(w: Weight, i: nat, j: nat)
    requires Falling(w) && i <= j
    ensures w(i) >= w(j) > 0.0
  {
    assert w(j) > w(j + 1);
  }

  lemma ShareGrows(ranking: seq<Chunk>, c: Chunk, ids: seq<string>, limit: nat, w: Weight)
    requires DistinctBy(ranking, (x: Chunk) => x.uuid) && Falling(w) && c.collection in ids
    ensures c in Prefetched(ranking, ids, limit) ==> c in Prefetched(ranking, [c.collection], limit)
    ensures Share(Prefetched(ranking, [c.collection], limit), c, w) >= Share(Prefetched(ranking, ids, limit), c, w)
  {
    if c in ranking {
      ScopedPlace(ranking, c, ids, limit, w);
      ScopedPlace(ranking, c, [c.collection], limit, w);
      PlaceImproves(ranking, c, ids);
      Worth(w, Before(ranking, c, [c.collection]), Before(ranking, c, ids));
    } else {
      NotRanked(ranking, c, ids, limit);
      NotRanked(ranking, c, [c.collection], limit);
    }
  }

  lemma ScoreGrows(r: Rankings, c: Chunk, ids: seq<string>, recallLimit: nat, w: Weight)
    requires WellRanked(r) && Falling(w) && c.collection in ids
    ensures var together, alone := FusedScore(r, recallLimit, w)(ids, c),
                                   FusedScore(r, recallLimit, w)([c.collection], c);
            together.Some? ==> alone.Some? && alone.value >= together.value
  {
    ShareGrows(r.dense, c, ids, 2 * recallLimit, w);
    ShareGrows(r.sparse, c, ids, 2 * recallLimit, w);
  }

  // ----- the two strategies -----

  /** However much is cut off, the parallel strategy yields at least as many chunks as one
      search over all the collections, and none of its scores is lower. */
  lemma ParallelNeverScoresLower(r: Rankings, ids: seq<string>, completion: seq<string>, recallLimit: nat, w: Weight)
    requires WellRanked(r) && Falling(w)
    requires DistinctBy(ids, (x: string) => x) && multiset(completion) == multiset(ids)
    ensures var score := FusedScore(r, recallLimit, w);
            NoLower(ScoresOf(Parallel(r.dense, score, completion, recallLimit)),
                    ScoresOf(Store(r.dense, score, recallLimit)(ids)))
  {
    var score := FusedScore(r, recallLimit, w);
    FusionFilters(r, recallLimit, w);
    forall c | c in r.dense && c.collection in ids ensures ScoresHigher(score, ids, Alone(score), c) {
      ScoreGrows(r, c, ids, recallLimit, w);
    }
    ParallelDominates(r.dense, score, ids, completion, recallLimit);
  }

  /** At most one of the collections in scope holds a chunk. */
  ghost predicate OneHoldsAll(corpus: seq<Chunk>, ids: seq<string>) {
    forall c, d :: c in corpus && d in corpus && c.collection in ids && d.collection in ids ==>
      c.collection == d.collection
  }

  ghost predicate StrategiesMatch(r: Rankings, ids: seq<string>, completion: seq<string>, recallLimit: nat, w: Weight) {
    var score := FusedScore(r, recallLimit, w);
    ScoresOf(Parallel(r.dense, score, completion, recallLimit)) == ScoresOf(Store(r.dense, score, recallLimit)(ids))
  }

  lemma SameScope(ranking: seq<Chunk>, corpus: seq<Chunk>, c: Chunk, ids: seq<string>)
    requires OneHoldsAll(corpus, ids) && c in corpus && c.collection in ids
    requires forall x :: x in ranking ==> x in corpus
    ensures Scoped(ranking, ids) == Scoped(ranking, [c.collection])
  {
    FilterSame(ranking, (x: Chunk) => x.collection in ids, (x: Chunk) => x.collection in [c.collection]);
  }

  lemma SameScore(r: Rankings, c: Chunk, ids: seq<string>, recallLimit: nat, w: Weight)
    requires WellRanked(r) && OneHoldsAll(r.dense, ids) && c in r.dense && c.collection in ids
    ensures FusedScore(r, recallLimit, w)(ids, c) == FusedScore(r, recallLimit, w)([c.collection], c)
  {
    SameScope(r.dense, r.dense, c, ids);
    SameScope(r.sparse, r.dense, c, ids);
  }

  lemma OneHoldsAllMatch(r: Rankings, ids: seq<string>, completion: seq<string>, recallLimit: nat, w: Weight)
    requires WellRanked(r) && OneHoldsAll(r.dense, ids)
    requires DistinctBy(ids, (x: string) => x) && multiset(completion) == multiset(ids)
    ensures StrategiesMatch(r, ids, completion, recallLimit, w)
  {
    var score := FusedScore(r, recallLimit, w);
    FusionFilters(r, recallLimit, w);
    forall c | c in r.dense && c.collection in ids ensures score(ids, c) == score([c.collection], c) {
      SameScore(r, c, ids, recallLimit, w);
    }
    StrategiesAgree(r.dense, score, ids, completion, recallLimit);
  }

  /** A chunk behind one of another collection scores more when its own is searched alone. */
  lemma LaterChunkGains(r: Rankings, c: Chunk, d: Chunk, ids: seq<string>, recallLimit: nat, w: Weight)
    requires WellRanked(r) && Falling(w) && |Scoped(r.dense, ids)| <= recallLimit
    requires c in r.dense && d in r.dense && Place(r.dense, c) < Place(r.dense, d)
    requires c.collection in ids && d.collection in ids && c.collection != d.collection
    ensures var together, alone := FusedScore(r, recallLimit, w)(ids, d),
                                   FusedScore(r, recallLimit, w)([d.collection], d);
            together.Some? && alone.Some? && alone.value > together.value
  {
    ScopedAround(r.dense, d, ids);
    ScopedPlace(r.dense, d, ids, 2 * recallLimit, w);
    ScopedPlace(r.dense, d, [d.collection], 2 * recallLimit, w);
    assert r.dense[..Place(r.dense, d)][Place(r.dense, c)] == c;
    PlaceImproves(r.dense, d, ids);
    Worth(w, Before(r.dense, d, ids), Before(r.dense, d, ids));
    ShareGrows(r.sparse, d, ids, 2 * recallLimit, w);
  }

  lemma TwoHoldersDiffer(r: Rankings, c: Chunk, d: Chunk, ids: seq<string>, completion: seq<string>,
                         recallLimit: nat, w: Weight)
    requires WellRanked(r) && Falling(w) && |Scoped(r.dense, ids)| <= recallLimit
    requires DistinctBy(ids, (x: string) => x) && multiset(completion) == multiset(ids)
    requires c in r.dense && d in r.dense && Place(r.dense, c) < Place(r.dense, d)
    requires c.collection in ids && d.collection in ids && c.collection != d.collection
    ensures !StrategiesMatch(r, ids, completion, recallLimit, w)
  {
    var score := FusedScore(r, recallLimit, w);
    FusionFilters(r, recallLimit, w);
    LaterChunkGains(r, c, d, ids, recallLimit, w);
    forall x | x in r.dense && x.collection in ids ensures ScoresHigher(score, ids, Alone(score), x) {
      ScoreGrows(r, x, ids, recallLimit, w);
    }
    ParallelDiffers(r.dense, score, ids, completion, recallLimit, d);
  }

  /** The fused strategies give the same scores whenever at most one collection in scope holds
      a chunk; and when the recall limit cuts nothing off, only then. */
  lemma FusedStrategiesAgreeIff(r: Rankings, ids: seq<string>, completion: seq<string>, recallLimit: nat, w: Weight)
    requires WellRanked(r) && Falling(w)
    requires DistinctBy(ids, (x: string) => x) && multiset(completion) == multiset(ids)
    ensures OneHoldsAll(r.dense, ids) ==> StrategiesMatch(r, ids, completion, recallLimit, w)
    ensures |Scoped(r.dense, ids)| <= recallLimit ==>
              (StrategiesMatch(r, ids, completion, recallLimit, w) <==> OneHoldsAll(r.dense, ids))
  {
    if OneHoldsAll(r.dense, ids) {
      OneHoldsAllMatch(r, ids, completion, recallLimit, w);
    } else if |Scoped(r.dense, ids)| <= recallLimit {
      var c, d :| c in r.dense && d in r.dense && c.collection in ids && d.collection in ids
               && c.collection != d.collection;
      if Place(r.dense, c) < Place(r.dense, d) {
        TwoHoldersDiffer(r, c, d, ids, completion, recallLimit, w);
      } else {
        TwoHoldersDiffer(r, d, c, ids, completion, recallLimit, w);
      }
    }
  }

  /** So they agree at every recall limit exactly when at most one collection in scope holds a chunk. */
  lemma FusedStrategiesAlwaysAgreeIff(r: Rankings, ids: seq<string>, completion: seq<string>, w: Weight)
    requires WellRanked(r) && Falling(w)
    requires DistinctBy(ids, (x: string) => x) && multiset(completion) == multiset(ids)
    ensures (forall recallLimit :: StrategiesMatch(r, ids, completion, recallLimit, w)) <==> OneHoldsAll(r.dense, ids)
  {
    if OneHoldsAll(r.dense, ids) {
      forall recallLimit ensures StrategiesMatch(r, ids, completion, recallLimit, w) {
        FusedStrategiesAgreeIff(r, ids, completion, recallLimit, w);
      }
    } else {
      FusedStrategiesAgreeIff(r, ids, completion, |Scoped(r.dense, ids)|, w);
    }
  }

  /** Two collections with one chunk each are enough, whatever the recall limit above one. */
  lemma TwoChunksSuffice(a: Chunk, b: Chunk, recallLimit: nat, k: nat)
    requires a.uuid != b.uuid && a.collection != b.collection && recallLimit >= 2
    ensures !StrategiesMatch(Rankings([a, b], [a, b]), [a.collection, b.collection], [b.collection, a.collection],
                             recallLimit, Reciprocal(k))
  {
    var r, ids := Rankings([a, b], [a, b]), [a.collection, b.collection];
    ReciprocalFalls(k);
    assert a in r.dense && b in r.dense;
    assert !OneHoldsAll(r.dense, ids);
    FusedStrategiesAgreeIff(r, ids, [b.collection, a.collection], recallLimit, Reciprocal(k));
  }
}
