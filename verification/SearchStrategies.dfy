/** One search over all collections in scope against one search for each of them, merged:
    the two ways retrieve_for_state (query/app/clients/qdrant.py) can go, for any store. */
module SearchStrategies {
  import opened PythonLists
  import opened Options
  import opened Sorting
  import opened Reranking
  import opened BestScores
  import opened MultiTopK

  // ----- a store -----

  /** The score a chunk gets in a search that names these collections, if it is found at all. */
  type Scoring = (seq<string>, Chunk) -> Option<real>

  ghost predicate Filters(score: Scoring) {
    forall asked, c :: score(asked, c).Some? ==> c.collection in asked
  }

  function Matches(corpus: seq<Chunk>, score: Scoring, asked: seq<string>): seq<Chunk> {
    if corpus == [] then []
    else
      var c := corpus[|corpus| - 1];
      Matches(corpus[..|corpus| - 1], score, asked)
      + match score(asked, c) case None => [] case Some(x) => [c.(score := Some(x))]
  }

  /** A search yields the best of what it finds. */
  function Store(corpus: seq<Chunk>, score: Scoring, limit: int): seq<string> -> seq<Chunk> {
    asked => Take(Sort(Matches(corpus, score, asked), ByScore), limit)
  }

  /** What the parallel strategy yields when its searches end in this order. */
  function Parallel(corpus: seq<Chunk>, score: Scoring, completion: seq<string>, limit: int): seq<Chunk> {
    MultiTop(AnswersInOrder(Store(corpus, score, limit), completion), limit)
  }

  /** Every chunk scored as in a search of its own collection alone. */
  function Alone(score: Scoring): Scoring {
    (asked: seq<string>, c: Chunk) => if c.collection in asked then score([c.collection], c) else None
  }

  lemma MatchesNext(corpus: seq<Chunk>, c: Chunk, score: Scoring, asked: seq<string>, t: real)
    ensures var before, after := Matches(corpus, score, asked), Matches(corpus + [c], score, asked);
            && |after| == |before| + (if score(asked, c).Some? then 1 else 0)
            && CountAtLeast(ScoresOf(after), t) == CountAtLeast(ScoresOf(before), t) +
                 (if score(asked, c).Some? && score(asked, c).value >= t then 1 else 0)
  {
    assert (corpus + [c])[..|corpus|] == corpus;
    var before := Matches(corpus, score, asked);
    if score(asked, c).Some? {
      var found := c.(score := score(asked, c));
      ScoresAppend(before, [found]);
      CountAppend(ScoresOf(before), ScoresOf([found]), t);
      assert ScoresOf([found])[1..] == [];
    } else {
      assert before + [] == before;
    }
  }

  lemma TopOfChunks(chunks: seq<Chunk>, k: nat)
    ensures ScoresOf(Take(Sort(chunks, ByScore), k)) == Top(ScoresOf(chunks), k)
  {
    TakeScored(Sort(chunks, ByScore), k);
    SortScored(chunks);
  }

  // ----- parallel searches, told by counting -----

  /** One more collection in the scope adds exactly what a search of it finds. */
  lemma {:induction false} ScopeSplits(corpus: seq<Chunk>, score: Scoring, ids: seq<string>, id: string, t: real)
    requires Filters(score) && id !in ids
    ensures var all, most, one := Matches(corpus, Alone(score), ids + [id]), Matches(corpus, Alone(score), ids),
                                  Matches(corpus, score, [id]);
            && |all| == |most| + |one|
            && CountAtLeast(ScoresOf(all), t) == CountAtLeast(ScoresOf(most), t) + CountAtLeast(ScoresOf(one), t)
  {
    if corpus != [] {
      var front, c := corpus[..|corpus| - 1], corpus[|corpus| - 1];
      ScopeSplits(front, score, ids, id, t);
      assert corpus == front + [c];
      MatchesNext(front, c, Alone(score), ids + [id], t);
      MatchesNext(front, c, Alone(score), ids, t);
      MatchesNext(front, c, score, [id], t);
    }
  }

  lemma {:induction false} NothingAsked(corpus: seq<Chunk>, score: Scoring)
    ensures Matches(corpus, Alone(score), []) == []
  {
    if corpus != [] { NothingAsked(corpus[..|corpus| - 1], score); }
  }

  /** Two lists of chunks with the same best k scores. */
  ghost predicate SameBest(a: seq<Chunk>, b: seq<Chunk>, k: nat) {
    Top(ScoresOf(a), k) == Top(ScoresOf(b), k)
  }

  lemma JoinBest(found: seq<Chunk>, most: seq<Chunk>, answer: seq<Chunk>, one: seq<Chunk>, all: seq<Chunk>, k: nat)
    requires SameBest(found, most, k) && SameBest(answer, one, k)
    requires |all| == |most| + |one|
    requires forall t :: CountAtLeast(ScoresOf(all), t) ==
                         CountAtLeast(ScoresOf(most), t) + CountAtLeast(ScoresOf(one), t)
    ensures SameBest(found + answer, all, k)
  {
    TopOfTops(ScoresOf(found), ScoresOf(most), ScoresOf(answer), ScoresOf(one), k);
    ScoresAppend(found, answer);
    forall t ensures CountAtLeast(ScoresOf(most) + ScoresOf(one), t) == CountAtLeast(ScoresOf(all), t) {
      CountAppend(ScoresOf(most), ScoresOf(one), t);
    }
    SameTop(ScoresOf(most) + ScoresOf(one), ScoresOf(all), k);
  }

  lemma SearchIsBest(corpus: seq<Chunk>, score: Scoring, asked: seq<string>, k: nat)
    ensures SameBest(Store(corpus, score, k)(asked), Matches(corpus, score, asked), k)
  {
    TopOfChunks(Matches(corpus, score, asked), k);
    TopTwice(ScoresOf(Matches(corpus, score, asked)), k);
  }

  lemma BestNext(corpus: seq<Chunk>, score: Scoring, ids: seq<string>, id: string, found: seq<Chunk>, k: nat)
    requires Filters(score) && id !in ids && SameBest(found, Matches(corpus, Alone(score), ids), k)
    ensures SameBest(found + Store(corpus, score, k)([id]), Matches(corpus, Alone(score), ids + [id]), k)
  {
    var all, most, one := Matches(corpus, Alone(score), ids + [id]), Matches(corpus, Alone(score), ids),
                          Matches(corpus, score, [id]);
    SearchIsBest(corpus, score, [id], k);
    forall t ensures CountAtLeast(ScoresOf(all), t) ==
                     CountAtLeast(ScoresOf(most), t) + CountAtLeast(ScoresOf(one), t)
    {
      ScopeSplits(corpus, score, ids, id, t);
    }
    ScopeSplits(corpus, score, ids, id, 0.0);
    JoinBest(found, most, Store(corpus, score, k)([id]), one, all, k);
  }

  /** The searches that have ended so far know the best of their collections. */
  lemma {:induction false} BestSoFar(corpus: seq<Chunk>, score: Scoring, ids: seq<string>, k: nat)
    requires Filters(score) && DistinctBy(ids, (x: string) => x)
    ensures SameBest(Flatten(AnswersInOrder(Store(corpus, score, k), ids)), Matches(corpus, Alone(score), ids), k)
  {
    var results := AnswersInOrder(Store(corpus, score, k), ids);
    if ids == [] {
      NothingAsked(corpus, score);
    } else {
      var front, id := ids[..|ids| - 1], ids[|ids| - 1];
      BestSoFar(corpus, score, front, k);
      assert AnswersInOrder(Store(corpus, score, k), front) == results[..|ids| - 1];
      assert ids == front + [id];
      BestNext(corpus, score, front, id, Flatten(results[..|ids| - 1]), k);
    }
  }

  // ----- no uuid is found twice -----

  ghost predicate InCorpus(c: Chunk, corpus: seq<Chunk>) {
    exists i :: 0 <= i < |corpus| && corpus[i].uuid == c.uuid && corpus[i].collection == c.collection
  }

  /** Chunks found so far are distinct chunks of the corpus, from the collections searched. */
  ghost predicate FoundAmong(found: seq<Chunk>, corpus: seq<Chunk>, ids: seq<string>) {
    && DistinctBy(found, (c: Chunk) => c.uuid)
    && forall c :: c in found ==> InCorpus(c, corpus) && c.collection in ids
  }

  lemma {:induction false} MatchesAmong(corpus: seq<Chunk>, score: Scoring, asked: seq<string>)
    requires Filters(score) && DistinctBy(corpus, (c: Chunk) => c.uuid)
    ensures FoundAmong(Matches(corpus, score, asked), corpus, asked)
  {
    if corpus != [] {
      var front, c := corpus[..|corpus| - 1], corpus[|corpus| - 1];
      MatchesAmong(front, score, asked);
      var before, after := Matches(front, score, asked), Matches(corpus, score, asked);
      forall d | d in before ensures d.uuid != c.uuid && InCorpus(d, corpus) {
        var i :| 0 <= i < |front| && front[i].uuid == d.uuid && front[i].collection == d.collection;
        assert corpus[i] == front[i];
      }
      forall d | d in after ensures InCorpus(d, corpus) && d.collection in asked {
        if d !in before { assert corpus[|corpus| - 1].uuid == d.uuid; }
      }
    }
  }

  lemma SearchFinds(corpus: seq<Chunk>, score: Scoring, asked: seq<string>, k: int)
    requires Filters(score) && DistinctBy(corpus, (c: Chunk) => c.uuid)
    ensures FoundAmong(Store(corpus, score, k)(asked), corpus, asked)
  {
    var found := Matches(corpus, score, asked);
    MatchesAmong(corpus, score, asked);
    SortDistinct(found, ByScore, (c: Chunk) => c.uuid);
    SortHasSameMembers(found, ByScore);
    forall c | c in Take(Sort(found, ByScore), k) ensures c in found {
      assert c in Sort(found, ByScore);
    }
  }

  lemma FoundJoin(found: seq<Chunk>, more: seq<Chunk>, corpus: seq<Chunk>, ids: seq<string>, id: string)
    requires DistinctBy(corpus, (c: Chunk) => c.uuid) && id !in ids
    requires FoundAmong(found, corpus, ids) && FoundAmong(more, corpus, [id])
    ensures FoundAmong(found + more, corpus, ids + [id])
  {
    forall c, d | c in found && d in more ensures c.uuid != d.uuid {
      assert InCorpus(c, corpus) && InCorpus(d, corpus) && c.collection != d.collection;
    }
  }

  lemma {:induction false} FoundSoFar(corpus: seq<Chunk>, score: Scoring, ids: seq<string>, k: int)
    requires Filters(score)
    requires DistinctBy(corpus, (c: Chunk) => c.uuid) && DistinctBy(ids, (x: string) => x)
    ensures FoundAmong(Flatten(AnswersInOrder(Store(corpus, score, k), ids)), corpus, ids)
  {
    if ids != [] {
      var front, id := ids[..|ids| - 1], ids[|ids| - 1];
      var store := Store(corpus, score, k);
      FoundSoFar(corpus, score, front, k);
      SearchFinds(corpus, score, [id], k);
      FoundJoin(Flatten(AnswersInOrder(store, front)), store([id]), corpus, front, id);
      assert AnswersInOrder(store, ids)[..|ids| - 1] == AnswersInOrder(store, front);
      assert ids == front + [id];
    }
  }

  // ----- the two strategies -----

  /** Whatever the store, and in whatever order the searches end, searching each collection
      by itself, cutting every answer to the limit and merging them yields the scores of the
      best chunks of all, each scored as in a search of its own collection alone. */
  lemma ParallelIsAlone(corpus: seq<Chunk>, score: Scoring, ids: seq<string>, completion: seq<string>, k: nat)
    requires Filters(score) && DistinctBy(corpus, (c: Chunk) => c.uuid)
    requires DistinctBy(ids, (x: string) => x) && multiset(completion) == multiset(ids)
    ensures ScoresOf(Parallel(corpus, score, completion, k)) == Top(ScoresOf(Matches(corpus, Alone(score), ids)), k)
  {
    var found := Flatten(AnswersInOrder(Store(corpus, score, k), completion));
    DistinctStays(ids, completion);
    FoundSoFar(corpus, score, completion, k);
    MergedOfDistinct(found);
    SameElementsSameScores(Merged(found), found);
    TakeScored(Sort(Merged(found), ByScore), k);
    TakeScored(Sort(found, ByScore), k);
    TopOfChunks(found, k);
    BestSoFar(corpus, score, completion, k);
    forall id ensures id in ids <==> id in completion {
      assert id in ids <==> id in multiset(completion);
    }
    SameMatches(corpus, Alone(score), completion, Alone(score), ids);
  }

  /** What a search finds depends only on the scores it gives. */
  lemma {:induction false} SameMatches(corpus: seq<Chunk>, score: Scoring, asked: seq<string>, score': Scoring,
                                       asked': seq<string>)
    requires forall c :: c in corpus ==> score(asked, c) == score'(asked', c)
    ensures Matches(corpus, score, asked) == Matches(corpus, score', asked')
  {
    if corpus != [] { SameMatches(corpus[..|corpus| - 1], score, asked, score', asked'); }
  }

  /** The score of a chunk does not depend on which other collections are searched with its own. */
  ghost predicate FilterBlind(corpus: seq<Chunk>, score: Scoring, ids: seq<string>) {
    forall c :: c in corpus && c.collection in ids ==> score(ids, c) == score([c.collection], c)
  }

  /** Against a store with such scores the parallel strategy gives the scores that one search
      over all the collections gives. */
  lemma StrategiesAgree(corpus: seq<Chunk>, score: Scoring, ids: seq<string>, completion: seq<string>, k: nat)
    requires Filters(score) && DistinctBy(corpus, (c: Chunk) => c.uuid) && FilterBlind(corpus, score, ids)
    requires DistinctBy(ids, (x: string) => x) && multiset(completion) == multiset(ids)
    ensures ScoresOf(Parallel(corpus, score, completion, k)) == ScoresOf(Store(corpus, score, k)(ids))
  {
    ParallelIsAlone(corpus, score, ids, completion, k);
    TopOfChunks(Matches(corpus, score, ids), k);
    SameMatches(corpus, score, ids, Alone(score), ids);
  }

  // ----- stores that score higher when asked for less -----

  /** A chunk found under the first scoring is found under the second, and scores no lower. */
  predicate ScoresHigher(low: Scoring, ids: seq<string>, high: Scoring, c: Chunk) {
    low(ids, c).Some? ==> high(ids, c).Some? && high(ids, c).value >= low(ids, c).value
  }

  lemma {:induction false} HigherCounts(corpus: seq<Chunk>, low: Scoring, ids: seq<string>, high: Scoring, t: real)
    requires forall c :: c in corpus ==> ScoresHigher(low, ids, high, c)
    ensures |Matches(corpus, low, ids)| <= |Matches(corpus, high, ids)|
    ensures CountAtLeast(ScoresOf(Matches(corpus, low, ids)), t) <=
            CountAtLeast(ScoresOf(Matches(corpus, high, ids)), t)
  {
    if corpus != [] {
      var front, c := corpus[..|corpus| - 1], corpus[|corpus| - 1];
      HigherCounts(front, low, ids, high, t);
      assert corpus == front + [c] && ScoresHigher(low, ids, high, c);
      MatchesNext(front, c, low, ids, t);
      MatchesNext(front, c, high, ids, t);
    }
  }

  /** At the height of a chunk that really gains, more chunks reach it. */
  lemma {:induction false} GainCounts(corpus: seq<Chunk>, low: Scoring, ids: seq<string>, high: Scoring, d: Chunk,
                                      t: real)
    requires forall c :: c in corpus ==> ScoresHigher(low, ids, high, c)
    requires d in corpus && high(ids, d) == Some(t) && (low(ids, d).Some? ==> low(ids, d).value < t)
    ensures CountAtLeast(ScoresOf(Matches(corpus, low, ids)), t) <
            CountAtLeast(ScoresOf(Matches(corpus, high, ids)), t)
  {
    var front, c := corpus[..|corpus| - 1], corpus[|corpus| - 1];
    assert corpus == front + [c] && ScoresHigher(low, ids, high, c);
    MatchesNext(front, c, low, ids, t);
    MatchesNext(front, c, high, ids, t);
    if d in front {
      GainCounts(front, low, ids, high, d, t);
    } else {
      HigherCounts(front, low, ids, high, t);
    }
  }

  /** At least as many scores, none of them lower than the one in its place. */
  predicate NoLower(high: seq<real>, low: seq<real>) {
    |high| >= |low| && forall i :: 0 <= i < |low| ==> high[i] >= low[i]
  }

  /** When a chunk never scores lower for being searched in its own collection alone, the
      parallel strategy never scores lower than one search. */
  lemma ParallelDominates(corpus: seq<Chunk>, score: Scoring, ids: seq<string>, completion: seq<string>, k: nat)
    requires Filters(score) && DistinctBy(corpus, (c: Chunk) => c.uuid)
    requires DistinctBy(ids, (x: string) => x) && multiset(completion) == multiset(ids)
    requires forall c :: c in corpus && c.collection in ids ==> ScoresHigher(score, ids, Alone(score), c)
    ensures NoLower(ScoresOf(Parallel(corpus, score, completion, k)), ScoresOf(Store(corpus, score, k)(ids)))
  {
    ParallelIsAlone(corpus, score, ids, completion, k);
    TopOfChunks(Matches(corpus, score, ids), k);
    var low, high := ScoresOf(Matches(corpus, score, ids)), ScoresOf(Matches(corpus, Alone(score), ids));
    CountTop(low, 0.0, k);
    CountTop(high, 0.0, k);
    HigherCounts(corpus, score, ids, Alone(score), 0.0);
    forall i | 0 <= i < |Top(low, k)| ensures Top(high, k)[i] >= Top(low, k)[i] {
      var t := Top(low, k)[i];
      HigherCounts(corpus, score, ids, Alone(score), t);
      CountTop(low, t, k);
      CountTop(high, t, k);
      CountSorted(Top(low, k), t, i);
      CountSorted(Top(high, k), t, i);
    }
  }

  lemma {:induction false} MatchesInScope(corpus: seq<Chunk>, score: Scoring, asked: seq<string>)
    requires Filters(score)
    ensures |Matches(corpus, score, asked)| <= |Filter(corpus, (c: Chunk) => c.collection in asked)|
  {
    if corpus != [] { MatchesInScope(corpus[..|corpus| - 1], score, asked); }
  }

  /** When nothing is cut off, a single chunk that gains sets the two strategies apart. */
  lemma ParallelDiffers(corpus: seq<Chunk>, score: Scoring, ids: seq<string>, completion: seq<string>, k: nat, d: Chunk)
    requires Filters(score) && DistinctBy(corpus, (c: Chunk) => c.uuid)
    requires DistinctBy(ids, (x: string) => x) && multiset(completion) == multiset(ids)
    requires forall c :: c in corpus && c.collection in ids ==> ScoresHigher(score, ids, Alone(score), c)
    requires |Filter(corpus, (c: Chunk) => c.collection in ids)| <= k
    requires d in corpus && d.collection in ids && score([d.collection], d).Some?
    requires score(ids, d).Some? ==> score(ids, d).value < score([d.collection], d).value
    ensures ScoresOf(Parallel(corpus, score, completion, k)) != ScoresOf(Store(corpus, score, k)(ids))
  {
    var t := score([d.collection], d).value;
    ParallelIsAlone(corpus, score, ids, completion, k);
    TopOfChunks(Matches(corpus, score, ids), k);
    GainCounts(corpus, score, ids, Alone(score), d, t);
    var low, high := ScoresOf(Matches(corpus, score, ids)), ScoresOf(Matches(corpus, Alone(score), ids));
    MatchesInScope(corpus, Alone(score), ids);
    TopsDiffer(low, high, t, k);
  }

  lemma TopsDiffer(low: seq<real>, high: seq<real>, t: real, k: nat)
    requires CountAtLeast(low, t) < CountAtLeast(high, t) && |high| <= k
    ensures Top(high, k) != Top(low, k)
  {
    CountWithin(high, t);
    CountTop(low, t, k);
    CountTop(high, t, k);
  }

  lemma {:induction false} CountWithin(xs: seq<real>, t: real)
    ensures CountAtLeast(xs, t) <= |xs|
  {
    if xs != [] { CountWithin(xs[1..], t); }
  }

  // ----- lists of collections -----

  lemma {:induction false} OneEach(xs: seq<string>, x: string)
    requires DistinctBy(xs, (s: string) => s)
    ensures multiset(xs)[x] <= 1
  {
    if xs != [] {
      var front, last := xs[..|xs| - 1], xs[|xs| - 1];
      OneEach(front, x);
      assert xs == front + [last];
      assert last !in front;
    }
  }

  lemma DistinctStays(a: seq<string>, b: seq<string>)
    requires multiset(a) == multiset(b) && DistinctBy(a, (s: string) => s)
    ensures DistinctBy(b, (s: string) => s)
  {
    forall i, j | 0 <= i < j < |b| ensures b[i] != b[j] {
      OneEach(a, b[i]);
      assert b == b[..j] + b[j..];
      assert b[..j][i] in multiset(b[..j]) && b[j..][0] in multiset(b[j..]);
    }
  }
}
