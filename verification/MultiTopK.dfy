/** Retrieval across collections (query/app/clients/qdrant.py): which collections are
    searched, and how the results of parallel searches, one a collection and arriving in
    any order, become one list. */
module MultiTopK {
  import opened PythonLists
  import opened Options
  import opened Sorting
  import opened MapWrites
  import opened Reranking

  // ----- the collections in scope -----

  /** The members of a list, each where it first occurs: the order of a dictionary's keys. */
  function Firsts<T(==)>(xs: seq<T>): (firsts: seq<T>)
    ensures |firsts| <= |xs|
  {
    if xs == [] then []
    else
      var before, last := Firsts(xs[..|xs| - 1]), xs[|xs| - 1];
      if last in before then before else before + [last]
  }

  predicate NonEmpty(s: string) { s != "" }

  function ScopeIds(collection: string, additional: seq<string>): seq<string> {
    Firsts(Filter([collection] + additional, NonEmpty))
  }

  lemma FirstsNext<T>(xs: seq<T>, x: T)
    ensures Firsts(xs + [x]) == if x in Firsts(xs) then Firsts(xs) else Firsts(xs) + [x]
  {
    assert (xs + [x])[..|xs|] == xs;
  }

  lemma FilterNext<T>(xs: seq<T>, x: T, keep: T -> bool)
    ensures Filter(xs + [x], keep) == if keep(x) then Filter(xs, keep) + [x] else Filter(xs, keep)
  {
    assert (xs + [x])[..|xs|] == xs;
  }

  lemma ScopeNext(collection: string, additional: seq<string>, i: nat)
    requires i < |additional|
    ensures var ids, item := ScopeIds(collection, additional[..i]), additional[i];
            ScopeIds(collection, additional[..i + 1]) == if item != "" && item !in ids then ids + [item] else ids
  {
    var before := [collection] + additional[..i];
    assert [collection] + additional[..i + 1] == before + [additional[i]];
    FilterNext(before, additional[i], NonEmpty);
    FirstsNext(Filter(before, NonEmpty), additional[i]);
  }

  /** _scope_collection_ids. */
  method ScopeCollectionIds(collection: string, additional: seq<string>) returns (ids: seq<string>)
    ensures ids == ScopeIds(collection, additional)
  {
    ids := [];
    FilterNext([], collection, NonEmpty);
    assert [] + [collection] == [collection];
    if collection != "" {
      FirstsNext([], collection);
      assert [] + [collection] == [collection];
      ids := ids + [collection];
    }
    assert [collection] + additional[..0] == [collection];
    for i := 0 to |additional|
      invariant ids == ScopeIds(collection, additional[..i])
    {
      var item := additional[i];
      ScopeNext(collection, additional, i);
      if item != "" && item !in ids {
        ids := ids + [item];
      }
    }
    assert additional[..|additional|] == additional;
  }

  lemma {:induction false} FirstsMeans<T(!new)>(xs: seq<T>)
    ensures DistinctBy(Firsts(xs), (x: T) => x)
    ensures forall x :: x in Firsts(xs) <==> x in xs
  {
    if xs != [] {
      FirstsMeans(xs[..|xs| - 1]);
      assert xs == xs[..|xs| - 1] + [xs[|xs| - 1]];
    }
  }

  lemma {:induction false} FirstsKeepsHead<T>(xs: seq<T>)
    requires xs != []
    ensures Firsts(xs) != [] && Firsts(xs)[0] == xs[0]
  {
    if |xs| > 1 {
      FirstsKeepsHead(xs[..|xs| - 1]);
    } else {
      assert xs[..0] == [];
    }
  }

  /** Each named collection is searched once, the primary one first, and no other. */
  lemma ScopeIdsMeans(collection: string, additional: seq<string>)
    ensures var ids := ScopeIds(collection, additional);
            && DistinctBy(ids, (x: string) => x)
            && (forall id :: id in ids <==> id != "" && (id == collection || id in additional))
            && (collection != "" ==> ids != [] && ids[0] == collection)
  {
    var named := Filter([collection] + additional, NonEmpty);
    FirstsMeans(named);
    FilterMembers([collection] + additional, NonEmpty);
    assert forall id :: id in [collection] + additional <==> id == collection || id in additional;
    if collection != "" {
      FilterKeepsHead([collection] + additional, NonEmpty);
      FirstsKeepsHead(named);
    }
  }

  lemma {:induction false} FilterKeepsHead<T>(xs: seq<T>, keep: T -> bool)
    requires xs != [] && keep(xs[0])
    ensures Filter(xs, keep) != [] && Filter(xs, keep)[0] == xs[0]
  {
    if |xs| > 1 {
      FilterKeepsHead(xs[..|xs| - 1], keep);
    } else {
      assert xs[..0] == [];
    }
  }

  // ----- merging the results -----

  function Flatten<T>(xss: seq<seq<T>>): seq<T> {
    if xss == [] then [] else Flatten(xss[..|xss| - 1]) + xss[|xss| - 1]
  }

  function Ids(chunks: seq<Chunk>): (ids: seq<string>)
    ensures |ids| == |chunks|
    ensures forall i :: 0 <= i < |chunks| ==> ids[i] == chunks[i].uuid
  {
    seq(|chunks|, i requires 0 <= i < |chunks| => chunks[i].uuid)
  }

  function Keyed(chunks: seq<Chunk>): (entries: seq<(string, Chunk)>)
    ensures |entries| == |chunks|
    ensures forall i :: 0 <= i < |chunks| ==> entries[i] == (chunks[i].uuid, chunks[i])
  {
    seq(|chunks|, i requires 0 <= i < |chunks| => (chunks[i].uuid, chunks[i]))
  }

  ghost predicate KeysArePresent(ids: seq<string>, byId: map<string, Chunk>) {
    forall i :: 0 <= i < |ids| ==> ids[i] in byId
  }

  /** A dictionary's values in insertion order. */
  function ValuesIn(ids: seq<string>, byId: map<string, Chunk>): (values: seq<Chunk>)
    requires KeysArePresent(ids, byId)
    ensures |values| == |ids|
    ensures forall i :: 0 <= i < |ids| ==> values[i] == byId[ids[i]]
  {
    seq(|ids|, i requires 0 <= i < |ids| => byId[ids[i]])
  }

  lemma MergedHasKeys(chunks: seq<Chunk>)
    ensures KeysArePresent(Firsts(Ids(chunks)), Assign(map[], Keyed(chunks)))
  {
    var ids := Firsts(Ids(chunks));
    FirstsMeans(Ids(chunks));
    forall i | 0 <= i < |ids| ensures ids[i] in Assign(map[], Keyed(chunks)) {
      assert ids[i] in ids;
      var j :| 0 <= j < |chunks| && Ids(chunks)[j] == ids[i];
      AssignMeans(map[], Keyed(chunks), ids[i]);
      assert Keyed(chunks)[j].0 == ids[i];
    }
  }

  /** One chunk a uuid: where the uuid first came, as it last came. */
  function Merged(chunks: seq<Chunk>): seq<Chunk> {
    MergedHasKeys(chunks);
    ValuesIn(Firsts(Ids(chunks)), Assign(map[], Keyed(chunks)))
  }

  /** The results, in the order they came, as one list cut to the recall limit. */
  function MultiTop(results: seq<seq<Chunk>>, recallLimit: int): seq<Chunk> {
    Take(Sort(Merged(Flatten(results)), ByScore), recallLimit)
  }

  lemma MergedNext(chunks: seq<Chunk>, c: Chunk)
    ensures Keyed(chunks + [c]) == Keyed(chunks) + [(c.uuid, c)]
    ensures Assign(map[], Keyed(chunks + [c])) == Assign(map[], Keyed(chunks))[c.uuid := c]
    ensures var firsts := Firsts(Ids(chunks));
            Firsts(Ids(chunks + [c])) == if c.uuid in firsts then firsts else firsts + [c.uuid]
    ensures c.uuid in Assign(map[], Keyed(chunks)) <==> c.uuid in Firsts(Ids(chunks))
  {
    assert Keyed(chunks + [c])[..|chunks|] == Keyed(chunks);
    assert Ids(chunks + [c]) == Ids(chunks) + [c.uuid];
    FirstsNext(Ids(chunks), c.uuid);
    KeyedHasIds(chunks, c.uuid);
  }

  lemma KeyedHasIds(chunks: seq<Chunk>, id: string)
    ensures id in Assign(map[], Keyed(chunks)) <==> id in Firsts(Ids(chunks))
  {
    FirstsMeans(Ids(chunks));
    AssignMeans(map[], Keyed(chunks), id);
    if id in Ids(chunks) {
      var j :| 0 <= j < |chunks| && Ids(chunks)[j] == id;
      assert Keyed(chunks)[j].0 == id;
    }
    if LastAt(Keyed(chunks), id) >= 0 {
      assert Ids(chunks)[LastAt(Keyed(chunks), id)] in Ids(chunks);
    }
  }

  /** The dictionary's keys in the order they came, and its values. */
  ghost predicate Entered(order: seq<string>, merged: map<string, Chunk>, chunks: seq<Chunk>) {
    order == Firsts(Ids(chunks)) && merged == Assign(map[], Keyed(chunks))
  }

  lemma EnteredOne(order: seq<string>, merged: map<string, Chunk>, chunks: seq<Chunk>, c: Chunk)
    requires Entered(order, merged, chunks)
    ensures Entered(if c.uuid in merged then order else order + [c.uuid], merged[c.uuid := c], chunks + [c])
  {
    MergedNext(chunks, c);
  }

  lemma EnteredNext(order: seq<string>, merged: map<string, Chunk>, before: seq<Chunk>, chunks: seq<Chunk>, j: nat)
    requires j < |chunks| && Entered(order, merged, before + chunks[..j])
    ensures var c := chunks[j];
            Entered(if c.uuid in merged then order else order + [c.uuid], merged[c.uuid := c], before + chunks[..j + 1])
  {
    EnteredOne(order, merged, before + chunks[..j], chunks[j]);
    OneMore(before, chunks, j);
  }

  lemma OneMore(before: seq<Chunk>, chunks: seq<Chunk>, j: nat)
    requires j < |chunks|
    ensures before + chunks[..j] + [chunks[j]] == before + chunks[..j + 1]
  {
  }

  /** One search's chunks entered into the dictionary. */
  method Enter(order: seq<string>, merged: map<string, Chunk>, chunks: seq<Chunk>, ghost before: seq<Chunk>)
    returns (order': seq<string>, merged': map<string, Chunk>)
    requires Entered(order, merged, before)
    ensures Entered(order', merged', before + chunks)
  {
    order', merged' := order, merged;
    assert before + chunks[..0] == before;
    for j := 0 to |chunks|
      invariant Entered(order', merged', before + chunks[..j])
    {
      var chunk := chunks[j];
      EnteredNext(order', merged', before, chunks, j);
      if chunk.uuid !in merged' { order' := order' + [chunk.uuid]; }
      merged' := merged'[chunk.uuid := chunk];
    }
    assert chunks[..|chunks|] == chunks;
  }

  /** The merge in _retrieve_multi_top_k, over the results in completion order. */
  method MergeAndRank(results: seq<seq<Chunk>>, recallLimit: int) returns (ranked: seq<Chunk>)
    ensures ranked == MultiTop(results, recallLimit)
  {
    var order: seq<string>, merged: map<string, Chunk> := [], map[];
    for f := 0 to |results|
      invariant order == Firsts(Ids(Flatten(results[..f]))) && merged == Assign(map[], Keyed(Flatten(results[..f])))
    {
      order, merged := Enter(order, merged, results[f], Flatten(results[..f]));
      assert results[..f + 1][..f] == results[..f];
    }
    assert results[..|results|] == results;
    MergedHasKeys(Flatten(results));
    ranked := Take(Sort(ValuesIn(order, merged), ByScore), recallLimit);
  }

  // ----- the order of arrival -----

  function ById(chunks: seq<Chunk>): map<string, Chunk> {
    Assign(map[], Keyed(chunks))
  }

  lemma ByIdCarriesId(chunks: seq<Chunk>, id: string)
    requires id in ById(chunks)
    ensures ById(chunks)[id].uuid == id
  {
    AssignMeans(map[], Keyed(chunks), id);
  }

  lemma MergedMeans(chunks: seq<Chunk>)
    ensures DistinctBy(Merged(chunks), (c: Chunk) => c.uuid)
    ensures forall c :: c in Merged(chunks) <==> c.uuid in ById(chunks) && ById(chunks)[c.uuid] == c
  {
    var ids, byId, merged := Firsts(Ids(chunks)), ById(chunks), Merged(chunks);
    MergedHasKeys(chunks);
    FirstsMeans(Ids(chunks));
    forall i | 0 <= i < |ids| ensures merged[i] == byId[ids[i]] && merged[i].uuid == ids[i] {
      ByIdCarriesId(chunks, ids[i]);
    }
    forall c: Chunk | c.uuid in byId && byId[c.uuid] == c ensures c in merged {
      AssignMeans(map[], Keyed(chunks), c.uuid);
      assert Ids(chunks)[LastAt(Keyed(chunks), c.uuid)] in Ids(chunks);
      var i :| 0 <= i < |ids| && ids[i] == c.uuid;
      assert merged[i] == c;
    }
  }

  lemma ByIdAppend(a: seq<Chunk>, b: seq<Chunk>, id: string)
    ensures id in ById(a + b) <==> id in ById(a) || id in ById(b)
    ensures id in ById(a + b) ==> ById(a + b)[id] == if id in ById(b) then ById(b)[id] else ById(a)[id]
  {
    assert Keyed(a + b) == Keyed(a) + Keyed(b);
    AssignAppend(map[], Keyed(a), Keyed(b));
    AssignMeans(ById(a), Keyed(b), id);
    AssignMeans(map[], Keyed(b), id);
  }

  lemma StandsForItself(chunks: seq<Chunk>, i: nat)
    requires DistinctBy(chunks, (c: Chunk) => c.uuid) && i < |chunks|
    ensures chunks[i].uuid in ById(chunks) && ById(chunks)[chunks[i].uuid] == chunks[i]
  {
    AssignMeans(map[], Keyed(chunks), chunks[i].uuid);
    assert Keyed(chunks)[i].0 == chunks[i].uuid;
    assert LastAt(Keyed(chunks), chunks[i].uuid) == i;
  }

  lemma MergedWasFound(chunks: seq<Chunk>, c: Chunk)
    requires c in Merged(chunks)
    ensures c in chunks
  {
    MergedMeans(chunks);
    AssignMeans(map[], Keyed(chunks), c.uuid);
    assert chunks[LastAt(Keyed(chunks), c.uuid)] == c;
  }

  /** With no uuid twice there is nothing to merge. */
  lemma MergedOfDistinct(chunks: seq<Chunk>)
    requires DistinctBy(chunks, (c: Chunk) => c.uuid)
    ensures multiset(Merged(chunks)) == multiset(chunks)
  {
    MergedMeans(chunks);
    forall c ensures c in Merged(chunks) <==> c in chunks {
      if c in chunks {
        var i :| 0 <= i < |chunks| && chunks[i] == c;
        StandsForItself(chunks, i);
      }
      if c in Merged(chunks) { MergedWasFound(chunks, c); }
    }
    SameMembersSameElements(Merged(chunks), chunks);
  }

  /** The search whose chunk stands for a uuid in the end: the last that found it. */
  lemma {:induction false} StandsFor(results: seq<seq<Chunk>>, id: string) returns (i: nat)
    requires id in ById(Flatten(results))
    ensures i < |results| && id in ById(results[i]) && ById(Flatten(results))[id] == ById(results[i])[id]
  {
    var front, last := results[..|results| - 1], results[|results| - 1];
    ByIdAppend(Flatten(front), last, id);
    if id in ById(last) {
      i := |results| - 1;
    } else {
      i := StandsFor(front, id);
    }
  }

  lemma {:induction false} FoundIsMerged(results: seq<seq<Chunk>>, i: nat, id: string)
    requires i < |results| && id in ById(results[i])
    ensures id in ById(Flatten(results))
  {
    var front, last := results[..|results| - 1], results[|results| - 1];
    ByIdAppend(Flatten(front), last, id);
    if i < |front| { FoundIsMerged(front, i, id); }
  }

  /** Searches that found the same uuid found the same chunk. */
  ghost predicate Agree(results: seq<seq<Chunk>>) {
    forall i, j, id :: 0 <= i < |results| && 0 <= j < |results| && id in ById(results[i]) && id in ById(results[j]) ==>
      ById(results[i])[id] == ById(results[j])[id]
  }

  lemma AgreeingOrders(a: seq<seq<Chunk>>, b: seq<seq<Chunk>>)
    requires multiset(a) == multiset(b) && Agree(a)
    ensures ById(Flatten(a)) == ById(Flatten(b)) && Agree(b)
  {
    var ma, mb := ById(Flatten(a)), ById(Flatten(b));
    AgreesToo(a, b);
    forall id | id in ma ensures id in mb && ma[id] == mb[id] {
      var i := StandsFor(a, id);
      var k := PlaceIn(a, b, i);
      FoundIsMerged(b, k, id);
      var j := StandsFor(b, id);
      assert ById(b[k])[id] == ById(b[j])[id];
    }
    forall id | id in mb ensures id in ma {
      var j := StandsFor(b, id);
      var k := PlaceIn(b, a, j);
      FoundIsMerged(a, k, id);
    }
  }

  lemma PlaceIn<T>(a: seq<T>, b: seq<T>, i: nat) returns (k: nat)
    requires multiset(a) == multiset(b) && i < |a|
    ensures k < |b| && b[k] == a[i]
  {
    assert a[i] in multiset(b);
    k :| k < |b| && b[k] == a[i];
  }

  lemma AgreesToo(a: seq<seq<Chunk>>, b: seq<seq<Chunk>>)
    requires multiset(a) == multiset(b) && Agree(a)
    ensures Agree(b)
  {
    forall i, j, id | 0 <= i < |b| && 0 <= j < |b| && id in ById(b[i]) && id in ById(b[j])
      ensures ById(b[i])[id] == ById(b[j])[id]
    {
      var k := PlaceIn(b, a, i);
      var l := PlaceIn(b, a, j);
      assert ById(a[k])[id] == ById(a[l])[id];
    }
  }

  lemma {:induction false} CountOfDistinct(xs: seq<Chunk>, c: Chunk)
    requires DistinctBy(xs, (x: Chunk) => x.uuid)
    ensures multiset(xs)[c] == if c in xs then 1 else 0
  {
    if xs != [] {
      var front, last := xs[..|xs| - 1], xs[|xs| - 1];
      CountOfDistinct(front, c);
      assert xs == front + [last];
    }
  }

  lemma SameMembersSameElements(a: seq<Chunk>, b: seq<Chunk>)
    requires DistinctBy(a, (x: Chunk) => x.uuid) && DistinctBy(b, (x: Chunk) => x.uuid)
    requires forall c :: c in a <==> c in b
    ensures multiset(a) == multiset(b)
  {
    forall c ensures multiset(a)[c] == multiset(b)[c] {
      CountOfDistinct(a, c);
      CountOfDistinct(b, c);
    }
  }

  ghost predicate SameChunks(a: seq<seq<Chunk>>, b: seq<seq<Chunk>>) {
    multiset(Merged(Flatten(a))) == multiset(Merged(Flatten(b)))
  }

  function MoveLast<T>(xs: seq<T>, i: nat): (r: seq<T>)
    requires i < |xs|
    ensures multiset(r) == multiset(xs)
  {
    RemoveAt(xs, i) + [xs[i]]
  }

  lemma LastWins(results: seq<seq<Chunk>>, i: nat, id: string)
    requires i < |results| && id in ById(results[i])
    ensures ById(results[i])[id] in Merged(Flatten(MoveLast(results, i)))
  {
    var moved := MoveLast(results, i);
    assert moved[..|moved| - 1] == results[..i] + results[i + 1..];
    ByIdAppend(Flatten(moved[..|moved| - 1]), results[i], id);
    ByIdCarriesId(results[i], id);
    MergedMeans(Flatten(moved));
  }

  /** Every order of arrival merges to the same chunks exactly when searches that found the
      same uuid found the same chunk. */
  lemma OrderIrrelevantIff(results: seq<seq<Chunk>>)
    ensures (forall b :: multiset(b) == multiset(results) ==> SameChunks(b, results)) <==> Agree(results)
  {
    if Agree(results) {
      forall b | multiset(b) == multiset(results) ensures SameChunks(b, results) {
        AgreeingOrders(results, b);
        MergedMeans(Flatten(results));
        MergedMeans(Flatten(b));
        SameMembersSameElements(Merged(Flatten(b)), Merged(Flatten(results)));
      }
    } else {
      var i, j, id :| 0 <= i < |results| && 0 <= j < |results| && id in ById(results[i]) && id in ById(results[j])
                   && ById(results[i])[id] != ById(results[j])[id];
      Disagreement(results, i, j, id);
    }
  }

  lemma Disagreement(results: seq<seq<Chunk>>, i: nat, j: nat, id: string)
    requires i < |results| && j < |results| && id in ById(results[i]) && id in ById(results[j])
    requires ById(results[i])[id] != ById(results[j])[id]
    ensures !SameChunks(MoveLast(results, i), results) || !SameChunks(MoveLast(results, j), results)
  {
    LastWins(results, i, id);
    LastWins(results, j, id);
    ByIdCarriesId(results[i], id);
    ByIdCarriesId(results[j], id);
    MergedMeans(Flatten(results));
    var c, d := ById(results[i])[id], ById(results[j])[id];
    var all := Merged(Flatten(results));
    assert c in multiset(Merged(Flatten(MoveLast(results, i)))) && d in multiset(Merged(Flatten(MoveLast(results, j))));
    assert !(c in all && d in all);
    assert !(c in multiset(all) && d in multiset(all));
  }

  // ----- scores -----

  function ScoresOf(chunks: seq<Chunk>): (scores: seq<real>)
    ensures |scores| == |chunks|
    ensures forall i :: 0 <= i < |chunks| ==> scores[i] == ScoreOr(chunks[i], 0.0)
  {
    ScoresOr(chunks, 0.0)
  }

  lemma ScoresAppend(a: seq<Chunk>, b: seq<Chunk>)
    ensures ScoresOf(a + b) == ScoresOf(a) + ScoresOf(b)
  {
  }

  lemma {:induction false} InsertScored(x: Chunk, ys: seq<Chunk>)
    ensures ScoresOf(Insert(x, ys, ByScore)) == Insert(ScoreOr(x, 0.0), ScoresOf(ys), Descending)
  {
    if ys != [] {
      assert ScoresOf(ys)[1..] == ScoresOf(ys[1..]);
      InsertScored(x, ys[1..]);
      ScoresAppend([ys[0]], Insert(x, ys[1..], ByScore));
    }
    ScoresAppend([x], ys);
  }

  /** Sorting by score sorts the scores. */
  lemma {:induction false} SortScored(xs: seq<Chunk>)
    ensures ScoresOf(Sort(xs, ByScore)) == Sort(ScoresOf(xs), Descending)
  {
    if xs != [] {
      assert ScoresOf(xs)[1..] == ScoresOf(xs[1..]);
      SortScored(xs[1..]);
      InsertScored(xs[0], Sort(xs[1..], ByScore));
    }
  }

  function RemoveAt<T>(xs: seq<T>, k: nat): (r: seq<T>)
    requires k < |xs|
    ensures multiset(xs) == multiset(r) + multiset{xs[k]}
  {
    assert xs == xs[..k] + [xs[k]] + xs[k + 1..];
    xs[..k] + xs[k + 1..]
  }

  lemma ScoresRemoveAt(xs: seq<Chunk>, k: nat)
    requires k < |xs|
    ensures ScoresOf(RemoveAt(xs, k)) == RemoveAt(ScoresOf(xs), k)
  {
  }

  lemma {:induction false} ScoresPermute(a: seq<Chunk>, b: seq<Chunk>)
    requires multiset(a) == multiset(b)
    ensures multiset(ScoresOf(a)) == multiset(ScoresOf(b))
    decreases |a|
  {
    if a == [] {
      assert |multiset(b)| == 0;
    } else {
      var k := PlaceIn(a, b, 0);
      assert multiset(RemoveAt(a, 0)) == multiset(a) - multiset{a[0]};
      assert multiset(RemoveAt(b, k)) == multiset(b) - multiset{b[k]};
      ScoresPermute(RemoveAt(a, 0), RemoveAt(b, k));
      ScoresRemoveAt(a, 0);
      ScoresRemoveAt(b, k);
    }
  }

  lemma SameElementsSameScores(a: seq<Chunk>, b: seq<Chunk>)
    requires multiset(a) == multiset(b)
    ensures ScoresOf(Sort(a, ByScore)) == ScoresOf(Sort(b, ByScore))
  {
    SortScored(a);
    SortScored(b);
    ScoresPermute(a, b);
    SortIsCanonical(ScoresOf(a), ScoresOf(b), Descending);
  }

  lemma TakeScored(xs: seq<Chunk>, k: int)
    ensures ScoresOf(Take(xs, k)) == Take(ScoresOf(xs), k)
  {
  }

  /** When searches agree, every order of arrival gives the same scores; and when no two
      merged chunks have the same score, the very same list. */
  lemma AnyOrderSameRanking(a: seq<seq<Chunk>>, b: seq<seq<Chunk>>, recallLimit: int)
    requires multiset(a) == multiset(b) && Agree(a)
    ensures ScoresOf(MultiTop(a, recallLimit)) == ScoresOf(MultiTop(b, recallLimit))
    ensures DistinctBy(Merged(Flatten(a)), (c: Chunk) => ScoreOr(c, 0.0)) ==>
            MultiTop(a, recallLimit) == MultiTop(b, recallLimit)
  {
    OrderIrrelevantIff(a);
    var ma, mb := Merged(Flatten(a)), Merged(Flatten(b));
    assert SameChunks(b, a);
    SameElementsSameScores(ma, mb);
    TakeScored(Sort(ma, ByScore), recallLimit);
    TakeScored(Sort(mb, ByScore), recallLimit);
    if DistinctBy(ma, (c: Chunk) => ScoreOr(c, 0.0)) { DistinctScoresSameOrder(ma, mb); }
  }

  lemma DistinctScoresSameOrder(a: seq<Chunk>, b: seq<Chunk>)
    requires multiset(a) == multiset(b) && DistinctBy(a, (c: Chunk) => ScoreOr(c, 0.0))
    ensures Sort(a, ByScore) == Sort(b, ByScore)
  {
    var sa, sb := Sort(a, ByScore), Sort(b, ByScore);
    SameElementsSameScores(a, b);
    SortKeepsElements(a, ByScore);
    SortKeepsElements(b, ByScore);
    SortDistinct(a, ByScore, (c: Chunk) => ScoreOr(c, 0.0));
    assert |sa| == |ScoresOf(sa)| == |ScoresOf(sb)| == |sb|;
    forall i | 0 <= i < |sa| ensures sa[i] == sb[i] {
      var k := PlaceIn(sb, sa, i);
      assert ScoresOf(sa)[i] == ScoresOf(sb)[i];
    }
  }

  /** The merged ranking holds no uuid twice, is descending, and what it leaves out of the
      union scores no better than anything in it. */
  lemma RankingIsTopOfUnion(results: seq<seq<Chunk>>, recallLimit: int) returns (leftOut: seq<Chunk>)
    requires recallLimit >= 1
    ensures var top := MultiTop(results, recallLimit);
            && DistinctBy(top, (c: Chunk) => c.uuid)
            && Sorted(top, ByScore)
            && |top| == Min(recallLimit, |Merged(Flatten(results))|)
            && multiset(top) + multiset(leftOut) == multiset(Merged(Flatten(results)))
            && (forall i, c :: 0 <= i < |top| && c in leftOut ==> ByScore(top[i], c))
  {
    var merged := Merged(Flatten(results));
    leftOut := CutKeepsBest(merged, recallLimit);
    MergedMeans(Flatten(results));
    SortDistinct(merged, ByScore, (c: Chunk) => c.uuid);
  }

  // ----- one search or one for each collection -----

  /** retrieve_for_state, once the query's vectors are at hand: `search` is the store's answer
      for a list of collections, `completion` the order in which parallel searches end, and
      `lower` Python's str.lower. */
  method RetrieveForState(collection: string, additional: seq<string>, strategy: string, lower: string -> string,
                          search: seq<string> -> seq<Chunk>, completion: seq<string>, recallLimit: int)
    returns (chunks: seq<Chunk>)
    requires multiset(completion) == multiset(ScopeIds(collection, additional))
    ensures chunks ==
            if lower(strategy) == "multi_top_k" && |ScopeIds(collection, additional)| > 1
            then MultiTop(AnswersInOrder(search, completion), recallLimit)
            else search(ScopeIds(collection, additional))
  {
    var ids := ScopeCollectionIds(collection, additional);
    if lower(strategy) == "multi_top_k" && |ids| > 1 {
      chunks := MergeAndRank(AnswersInOrder(search, completion), recallLimit);
    } else {
      chunks := search(ids);
    }
  }

  function AnswersInOrder(search: seq<string> -> seq<Chunk>, ids: seq<string>): (results: seq<seq<Chunk>>)
    ensures |results| == |ids|
    ensures forall i :: 0 <= i < |ids| ==> results[i] == search([ids[i]])
  {
    seq(|ids|, i requires 0 <= i < |ids| => search([ids[i]]))
  }

  // ----- searches that disagree -----

  /** The stub store: one chunk, the same whatever is searched but for its collection. */
  function StubStore(stub: Chunk): seq<string> -> seq<Chunk> {
    asked => [stub.(collection := if asked == [] || asked[0] == "" then "stub-collection" else asked[0])]
  }

  lemma {:induction false} AllOneUuid(stub: Chunk, ids: seq<string>)
    ensures forall c :: c in Flatten(AnswersInOrder(StubStore(stub), ids)) ==> c.uuid == stub.uuid
  {
    if ids != [] {
      var results := AnswersInOrder(StubStore(stub), ids);
      AllOneUuid(stub, ids[..|ids| - 1]);
      assert results[..|ids| - 1] == AnswersInOrder(StubStore(stub), ids[..|ids| - 1]);
    }
  }

  /** Chunks of one uuid merge to the last of them. */
  lemma OneUuidMerged(chunks: seq<Chunk>, last: Chunk)
    requires forall c :: c in chunks ==> c.uuid == last.uuid
    ensures Merged(chunks + [last]) == [last]
  {
    var all := chunks + [last];
    var merged := Merged(all);
    MergedNext(chunks, last);
    MergedMeans(all);
    assert last in merged;
    forall j | 0 <= j < |merged| ensures merged[j] == last {
      assert merged[j] in merged;
      MergedWasFound(all, merged[j]);
    }
    assert |merged| > 1 ==> merged[0].uuid != merged[1].uuid;
  }

  /** Such searches disagree, so the order of arrival decides which collection is cited: the
      last to end, whichever it is. */
  lemma StubCitesLast(stub: Chunk, completion: seq<string>, recallLimit: int)
    requires completion != [] && recallLimit >= 1
    ensures MultiTop(AnswersInOrder(StubStore(stub), completion), recallLimit) ==
            StubStore(stub)([completion[|completion| - 1]])
  {
    var results := AnswersInOrder(StubStore(stub), completion);
    var found, cited := Flatten(results[..|completion| - 1]), StubStore(stub)([completion[|completion| - 1]])[0];
    AllOneUuid(stub, completion[..|completion| - 1]);
    assert results[..|completion| - 1] == AnswersInOrder(StubStore(stub), completion[..|completion| - 1]);
    OneUuidMerged(found, cited);
    assert Sort([cited], ByScore) == [cited] by { assert [cited][1..] == []; }
  }
}
