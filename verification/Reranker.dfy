/** Reranking retrieved chunks: query/app/clients/reranker.py, and the fallback order that
    query/app/rag_graph.py uses while the reranker's breaker is open. */
module Reranking {
  import opened Options
  import opened PythonLists
  import opened Sorting

  /** A retrieved chunk; a score that is present is a number. */
  datatype Chunk = Chunk(uuid: string, collection: string, document: string, text: string, score: Option<real>)

  function ScoreOr(c: Chunk, default: real): real {
    if c.score.Some? then c.score.value else default
  }

  function ScoresOr(chunks: seq<Chunk>, default: real): (scores: seq<real>)
    ensures |scores| == |chunks|
    ensures forall i :: 0 <= i < |chunks| ==> scores[i] == ScoreOr(chunks[i], default)
  {
    seq(|chunks|, i requires 0 <= i < |chunks| => ScoreOr(chunks[i], default))
  }

  function Zip<A, B>(xs: seq<A>, ys: seq<B>): (pairs: seq<(A, B)>)
    ensures |pairs| == if |xs| <= |ys| then |xs| else |ys|
    ensures forall i :: 0 <= i < |pairs| ==> pairs[i] == (xs[i], ys[i])
  {
    seq(if |xs| <= |ys| then |xs| else |ys|, i requires 0 <= i < |xs| && i < |ys| => (xs[i], ys[i]))
  }

  predicate PairDescending(a: (Chunk, real), b: (Chunk, real)) { a.1 >= b.1 }

  function Rescore(pair: (Chunk, real)): Chunk { pair.0.(score := Some(pair.1)) }

  /** _sort_by_scores: a stable descending sort, cut to top_k, with the scores written in. */
  method SortByScores(chunks: seq<Chunk>, scores: seq<real>, topK: int) returns (ranked: seq<Chunk>)
    ensures ranked == Ranked(chunks, scores, topK)
  {
    var paired := Sort(Zip(chunks, scores), PairDescending);
    var kept := Take(paired, topK);
    ranked := [];
    for i := 0 to |kept|
      invariant |ranked| == i
      invariant forall j :: 0 <= j < i ==> ranked[j] == Rescore(kept[j])
    {
      ranked := ranked + [Rescore(kept[i])];
    }
    RankedAt(chunks, scores, topK);
  }

  /** rerank.  `predicted` is the sidecar's reply, used when the client is not a stub. */
  method Rerank(chunks: seq<Chunk>, stub: bool, predicted: seq<real>, topK: int)
    returns (ranked: seq<Chunk>, topScores: seq<real>)
    ensures (ranked, topScores) == Reranked(chunks, stub, predicted, topK)
  {
    if chunks == [] { return [], []; }
    var scores;
    if stub {
      scores := ScoresOr(chunks, 0.85);
    } else {
      scores := predicted;
      if |scores| < |chunks| {
        scores := scores + seq(|chunks| - |scores|, _ => 0.0);
      }
    }
    ranked := SortByScores(chunks, scores, topK);
    topScores := ScoresOr(ranked, 0.0);
  }

  // ----- what a reranking is: a top-k of the scored input -----

  predicate ByScore(a: Chunk, b: Chunk) { ScoreOr(a, 0.0) >= ScoreOr(b, 0.0) }

  /** The input with its new scores written in. */
  function Scored(chunks: seq<Chunk>, scores: seq<real>): (r: seq<Chunk>)
    ensures |r| == |Zip(chunks, scores)|
    ensures forall i :: 0 <= i < |r| ==> r[i] == chunks[i].(score := Some(scores[i]))
  {
    seq(|Zip(chunks, scores)|, i requires 0 <= i < |chunks| && i < |scores| => chunks[i].(score := Some(scores[i])))
  }

  function Ranked(chunks: seq<Chunk>, scores: seq<real>, topK: int): seq<Chunk> {
    Take(Sort(Scored(chunks, scores), ByScore), topK)
  }

  function Padded(predicted: seq<real>, n: nat): seq<real> {
    if |predicted| < n then predicted + seq(n - |predicted|, _ => 0.0) else predicted
  }

  function NewScores(chunks: seq<Chunk>, stub: bool, predicted: seq<real>): (scores: seq<real>)
    ensures |scores| >= |chunks|
  {
    if stub then ScoresOr(chunks, 0.85) else Padded(predicted, |chunks|)
  }

  function Reranked(chunks: seq<Chunk>, stub: bool, predicted: seq<real>, topK: int): (seq<Chunk>, seq<real>) {
    if chunks == [] then ([], [])
    else
      var ranked := Ranked(chunks, NewScores(chunks, stub, predicted), topK);
      (ranked, ScoresOr(ranked, 0.0))
  }

  /** Inserting scored pairs and inserting rescored chunks take the same turns. */
  lemma {:induction false} InsertRescored(x: (Chunk, real), ys: seq<(Chunk, real)>, zs: seq<Chunk>)
    requires |zs| == |ys| && forall i :: 0 <= i < |ys| ==> zs[i] == Rescore(ys[i])
    ensures var a, b := Insert(x, ys, PairDescending), Insert(Rescore(x), zs, ByScore);
            |a| == |b| && forall i :: 0 <= i < |a| ==> b[i] == Rescore(a[i])
  {
    if ys != [] && !PairDescending(x, ys[0]) {
      InsertRescored(x, ys[1..], zs[1..]);
    }
  }

  lemma {:induction false} SortRescored(ys: seq<(Chunk, real)>, zs: seq<Chunk>)
    requires |zs| == |ys| && forall i :: 0 <= i < |ys| ==> zs[i] == Rescore(ys[i])
    ensures var a, b := Sort(ys, PairDescending), Sort(zs, ByScore);
            |a| == |b| && forall i :: 0 <= i < |a| ==> b[i] == Rescore(a[i])
  {
    if ys != [] {
      SortRescored(ys[1..], zs[1..]);
      InsertRescored(ys[0], Sort(ys[1..], PairDescending), Sort(zs[1..], ByScore));
    }
  }

  lemma RankedAt(chunks: seq<Chunk>, scores: seq<real>, topK: int)
    ensures var kept := Take(Sort(Zip(chunks, scores), PairDescending), topK);
            var ranked := Ranked(chunks, scores, topK);
            |ranked| == |kept| && forall i :: 0 <= i < |kept| ==> ranked[i] == Rescore(kept[i])
  {
    SortRescored(Zip(chunks, scores), Scored(chunks, scores));
  }

  lemma ByScoreIsPreorder()
    ensures TotalPreorder(ByScore)
  {
  }

  /** Cutting a descending sort keeps the best. */
  lemma CutKeepsBest(input: seq<Chunk>, topK: int) returns (leftOut: seq<Chunk>)
    requires topK >= 1
    ensures var kept := Take(Sort(input, ByScore), topK);
            && |kept| == Min(topK, |input|)
            && Sorted(kept, ByScore)
            && multiset(kept) + multiset(leftOut) == multiset(input)
            && (forall i, c :: 0 <= i < |kept| && c in leftOut ==> ByScore(kept[i], c))
  {
    var sorted := Sort(input, ByScore);
    ByScoreIsPreorder();
    SortIsSorted(input, ByScore);
    SortKeepsElements(input, ByScore);
    var kept := Take(sorted, topK);
    leftOut := sorted[|kept|..];
    assert sorted == kept + leftOut;
  }

  /** The score a chunk is ranked by: its own, or 0.85, for a stub; else the sidecar's for its
      place in the list, or 0 where the sidecar's list is too short. */
  function OwnScore(chunks: seq<Chunk>, stub: bool, predicted: seq<real>, i: nat): real
    requires i < |chunks|
  {
    if stub then (if chunks[i].score.Some? then chunks[i].score.value else 0.85)
    else if i < |predicted| then predicted[i] else 0.0
  }

  lemma InputScored(chunks: seq<Chunk>, stub: bool, predicted: seq<real>, i: nat)
    requires i < |chunks|
    ensures var input := Scored(chunks, NewScores(chunks, stub, predicted));
            |input| == |chunks| && input[i] == chunks[i].(score := Some(OwnScore(chunks, stub, predicted, i)))
  {
  }

  /** Cutting a stable descending sort keeps the best: where each chunk kept came from, equal
      scores in the input's order, and nothing left out better than anything kept. */
  ghost predicate StableTop(ranked: seq<Chunk>, input: seq<Chunk>, places: seq<nat>) {
    && Permutation(places, |input|) && |ranked| <= |input|
    && (forall k :: 0 <= k < |ranked| ==> ranked[k] == input[places[k]])
    && (forall k, l :: 0 <= k < l < |ranked| ==>
          || ScoreOr(ranked[k], 0.0) > ScoreOr(ranked[l], 0.0)
          || (ScoreOr(ranked[k], 0.0) == ScoreOr(ranked[l], 0.0) && places[k] < places[l]))
    && (forall k, l :: 0 <= k < |ranked| <= l < |input| ==>
          ScoreOr(ranked[k], 0.0) >= ScoreOr(input[places[l]], 0.0))
  }

  lemma CutIsStableTop(input: seq<Chunk>, topK: int) returns (places: seq<nat>)
    ensures StableTop(Take(Sort(input, ByScore), topK), input, places)
    ensures |Take(Sort(input, ByScore), topK)| == |Take(input, topK)|
  {
    places := SortPlaces(input, ByScore);
    ByScoreIsPreorder();
    SortIsSorted(input, ByScore);
    var sorted := Sort(input, ByScore);
    forall k, l | 0 <= k < l < |input| ensures ByScore(sorted[k], sorted[l]) {}
  }

  /** A reranking is the stable top-k of the input: each ranked chunk is one of the input's,
      with its own score written in, none twice; the scores, given along, descend, and equal
      ones keep the input's order; and nothing left out beats anything kept. */
  lemma RerankedIsTopK(chunks: seq<Chunk>, stub: bool, predicted: seq<real>, topK: int) returns (places: seq<nat>)
    ensures Permutation(places, |chunks|)
    ensures var (ranked, scores) := Reranked(chunks, stub, predicted, topK);
            && |ranked| == |scores| == |Take(chunks, topK)|
            && (forall k :: 0 <= k < |ranked| ==>
                  && scores[k] == OwnScore(chunks, stub, predicted, places[k])
                  && ranked[k] == chunks[places[k]].(score := Some(scores[k])))
            && (forall k, l :: 0 <= k < l < |ranked| ==>
                  scores[k] > scores[l] || (scores[k] == scores[l] && places[k] < places[l]))
            && (forall k, l :: 0 <= k < |ranked| <= l < |chunks| ==>
                  scores[k] >= OwnScore(chunks, stub, predicted, places[l]))
  {
    var input := Scored(chunks, NewScores(chunks, stub, predicted));
    places := CutIsStableTop(input, topK);
    forall i | 0 <= i < |chunks|
      ensures |input| == |chunks| && input[i] == chunks[i].(score := Some(OwnScore(chunks, stub, predicted, i)))
    {
      InputScored(chunks, stub, predicted, i);
    }
    if chunks == [] { assert places == []; }
  }

  /** The pipeline's test for abstaining on a reranking. */
  predicate Abstains(scores: seq<real>, minScore: real) {
    scores == [] || scores[0] < minScore
  }

  /** The head of a descending sort is a best chunk. */
  lemma BestFirst(input: seq<Chunk>)
    requires input != []
    ensures var sorted := Sort(input, ByScore);
            && |sorted| == |input| && sorted[0] in input
            && (forall c :: c in input ==> ByScore(sorted[0], c))
  {
    var sorted := Sort(input, ByScore);
    ByScoreIsPreorder();
    SortIsSorted(input, ByScore);
    SortKeepsElements(input, ByScore);
    SortHasSameMembers(input, ByScore);
    assert |multiset(sorted)| == |multiset(input)|;
    assert sorted[0] in sorted;
    forall c | c in input ensures ByScore(sorted[0], c) {
      var j :| 0 <= j < |sorted| && sorted[j] == c;
      assert j == 0 || ByScore(sorted[0], sorted[j]);
    }
  }

  /** The pipeline abstains exactly when no scored chunk reaches the threshold, or top_k, as a
      Python slice bound, cuts all of them off: otherwise cutting never changes it. */
  lemma AbstainsIffAllBelow(chunks: seq<Chunk>, stub: bool, predicted: seq<real>, topK: int, minScore: real)
    ensures Abstains(Reranked(chunks, stub, predicted, topK).1, minScore) <==>
            || Take(chunks, topK) == []
            || forall i :: 0 <= i < |chunks| ==> OwnScore(chunks, stub, predicted, i) < minScore
  {
    var places := RerankedIsTopK(chunks, stub, predicted, topK);
    var (ranked, scores) := Reranked(chunks, stub, predicted, topK);
    if ranked != [] && scores[0] < minScore {
      forall i | 0 <= i < |chunks| ensures OwnScore(chunks, stub, predicted, i) <= scores[0] {
        assert i in places;
        var l :| 0 <= l < |chunks| && places[l] == i;
        assert l == 0 || l < |ranked| || scores[0] >= OwnScore(chunks, stub, predicted, places[l]);
      }
    }
  }

  // ----- the fallback -----

  /** The order used while the reranker's breaker is open. */
  function Fallback(chunks: seq<Chunk>, topK: int): (seq<Chunk>, seq<real>) {
    var ranked := Take(Sort(chunks, ByScore), topK);
    (ranked, ScoresOr(ranked, 0.0))
  }

  /** The fallback is the stable top-k of the chunks by the scores they carry, a missing one
      reading as 0; it changes no chunk. */
  lemma FallbackIsTopK(chunks: seq<Chunk>, topK: int) returns (places: seq<nat>)
    ensures var (ranked, scores) := Fallback(chunks, topK);
            && |ranked| == |scores| == |Take(chunks, topK)| && StableTop(ranked, chunks, places)
            && forall k :: 0 <= k < |ranked| ==> scores[k] == ScoreOr(chunks[places[k]], 0.0)
  {
    places := CutIsStableTop(chunks, topK);
  }

  lemma FallbackAbstainsIff(chunks: seq<Chunk>, topK: int, minScore: real)
    ensures Abstains(Fallback(chunks, topK).1, minScore) <==>
            || Take(chunks, topK) == []
            || forall c :: c in chunks ==> ScoreOr(c, 0.0) < minScore
  {
    if chunks != [] { BestFirst(chunks); }
  }

  predicate AllScored(chunks: seq<Chunk>) {
    forall c :: c in chunks ==> c.score.Some?
  }

  /** The fallback gives what the stub reranker would, for every top_k, exactly when every
      chunk already carries a score. */
  lemma FallbackMatchesStubIff(chunks: seq<Chunk>)
    ensures (forall topK :: topK >= 1 ==> Fallback(chunks, topK) == Reranked(chunks, true, [], topK)) <==>
            AllScored(chunks)
  {
    if AllScored(chunks) {
      assert Scored(chunks, ScoresOr(chunks, 0.85)) == chunks;
    } else {
      var c :| c in chunks && c.score.None?;
      var n := |chunks|;
      SortHasSameMembers(chunks, ByScore);
      SortKeepsElements(chunks, ByScore);
      assert Take(Sort(chunks, ByScore), n) == Sort(chunks, ByScore);
      assert c in Fallback(chunks, n).0;
      var places := RerankedIsTopK(chunks, true, [], n);
      assert c !in Reranked(chunks, true, [], n).0;
      assert n >= 1 && Fallback(chunks, n) != Reranked(chunks, true, [], n);
    }
  }
}
