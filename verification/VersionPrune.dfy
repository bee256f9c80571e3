/** Retention pruning across the stores (ingest/app/version_prune.py), in a process that may
    die between any two deletes.

    Qdrant deletes by the tenant, collection, document and version a point carries, in the
    physical collection that serves the tenant; Neo4j by tenant, document and version. */
module VersionPruning {
  import opened PythonLists
  import opened MapSums
  import opened SetSizes
  import opened CatalogSpec
  import opened StoreData
  import opened CatalogStores

  datatype GraphKey = GraphKey(tenant: string, document: string, version: string)

  function GraphOf(key: VerKey): GraphKey { GraphKey(key.doc.tenant, key.doc.document, key.version) }

  function GraphsOf(keys: set<VerKey>): set<GraphKey> { set key | key in keys :: GraphOf(key) }

  function NodeGraph(id: NodeId, n: Node): GraphKey { GraphKey(id.tenant, n.document, n.version) }

  /** The version a point says it is of, without the default the catalog puts in. */
  function PointVersion(p: Point): VerKey {
    VerKey(DocKey(p.payload.tenant, p.payload.collection, p.payload.document), p.payload.version)
  }

  predicate Hit(id: PointId, p: Point, gone: set<VerKey>, physical: string -> string) {
    id.physical == physical(p.payload.tenant) && PointVersion(p) in gone
  }

  function DropPoints(points: Points, gone: set<VerKey>, physical: string -> string): Points {
    map id | id in points && !Hit(id, points[id], gone, physical) :: points[id]
  }

  function DropNodes(nodes: Nodes, gone: set<GraphKey>): Nodes {
    map id | id in nodes && NodeGraph(id, nodes[id]) !in gone :: nodes[id]
  }

  /** What a prune works on. */
  datatype Stock = Stock(points: Points, nodes: Nodes, catalog: Catalog)

  /** A whole prune: the prunable versions' points and catalog rows, and every node that
      carries the tenant, document and version of one of them. */
  ghost function Pruned(s: Stock, keepCount: int, physical: string -> string): Stock {
    var gone := PrunableSet(s.catalog, keepCount);
    Stock(DropPoints(s.points, gone, physical), DropNodes(s.nodes, GraphsOf(gone)), Without(s.catalog, gone))
  }

  /** What a prune of these candidates has done after `alive` deletes: for each candidate its
      points and then its nodes, and the catalog rows of all of them last. */
  function PrunedFor(s: Stock, candidates: seq<Candidate>, alive: nat, physical: string -> string): Stock {
    Stock(DropPoints(s.points, KeysOf(candidates[..Min((alive + 1) / 2, |candidates|)]), physical),
          DropNodes(s.nodes, GraphsOf(KeysOf(candidates[..Min(alive / 2, |candidates|)]))),
          if alive > 2 * |candidates| then Without(s.catalog, KeysOf(candidates)) else s.catalog)
  }

  function CountsOf(versions: Versions, keys: set<VerKey>): map<VerKey, int> {
    map key | key in keys && key in versions :: versions[key].chunkCount
  }

  datatype Report =
    | DryRun(candidates: seq<Candidate>)
    | Removed(pruned: nat, points: int, nodes: int, catalogRows: nat)

  datatype Outcome = Died | Finished(report: Report)

  lemma CountsOfNext(versions: Versions, keys: set<VerKey>, key: VerKey)
    requires key in versions && key !in keys
    ensures Sum(CountsOf(versions, keys + {key})) == Sum(CountsOf(versions, keys)) + versions[key].chunkCount
  {
    assert CountsOf(versions, keys + {key}) == CountsOf(versions, keys)[key := versions[key].chunkCount];
    SumUpdate(CountsOf(versions, keys), key, versions[key].chunkCount);
  }

  /** The points the candidates' rows say they have. */
  function Expected(candidates: seq<Candidate>): int {
    if candidates == [] then 0
    else Expected(candidates[..|candidates| - 1]) + candidates[|candidates| - 1].chunkCount
  }

  lemma ExpectedNext(candidates: seq<Candidate>, i: nat)
    requires i < |candidates|
    ensures Expected(candidates[..i + 1]) == Expected(candidates[..i]) + candidates[i].chunkCount
  {
    assert candidates[..i + 1][..i] == candidates[..i];
  }

  lemma DropPointsNext(points: Points, keys: set<VerKey>, key: VerKey, physical: string -> string)
    ensures DropPoints(DropPoints(points, keys, physical), {key}, physical) ==
            DropPoints(points, keys + {key}, physical)
  {
  }

  lemma DropNodesNext(nodes: Nodes, keys: set<VerKey>, key: VerKey)
    ensures DropNodes(DropNodes(nodes, GraphsOf(keys)), {GraphOf(key)}) == DropNodes(nodes, GraphsOf(keys + {key}))
  {
    assert GraphsOf(keys + {key}) == GraphsOf(keys) + {GraphOf(key)};
  }

  lemma CandidatesAreDistinct(candidates: seq<Candidate>)
    requires DistinctKeys(candidates)
    ensures |KeysOf(candidates)| == |candidates|
  {
    ImageSize(candidates, |candidates|, (c: Candidate) => c.key);
    assert KeysOf(candidates) == Image(candidates, |candidates|, (c: Candidate) => c.key);
  }

  lemma ListedKeys(cat: Catalog, keepCount: int, candidates: seq<Candidate>)
    requires ListsPrunable(cat, keepCount, cat.documents.Keys, candidates)
    ensures KeysOf(candidates) == PrunableSet(cat, keepCount)
  {
    forall key ensures key in KeysOf(candidates) <==> key in PrunableSet(cat, keepCount) {
      if key in KeysOf(candidates) {
        var i :| 0 <= i < |candidates| && candidates[i].key == key;
        assert Prunable(cat, keepCount, candidates[i].key);
      }
      if key in PrunableSet(cat, keepCount) { assert HasKey(candidates, key); }
    }
  }

  ghost predicate CarriesCount(versions: Versions, c: Candidate) {
    c.key in versions && c.chunkCount == versions[c.key].chunkCount
  }

  lemma {:induction false} CountsOfDistinct(versions: Versions, candidates: seq<Candidate>)
    requires DistinctKeys(candidates) && forall c :: c in candidates ==> CarriesCount(versions, c)
    ensures Expected(candidates) == Sum(CountsOf(versions, KeysOf(candidates)))
  {
    if candidates == [] {
      assert CountsOf(versions, KeysOf(candidates)) == map[];
    } else {
      var n := |candidates| - 1;
      CountsOfDistinct(versions, candidates[..n]);
      KeysOfNext(candidates, n);
      assert candidates[..n + 1] == candidates;
      assert CarriesCount(versions, candidates[n]);
      CountsOfNext(versions, KeysOf(candidates[..n]), candidates[n].key);
    }
  }

  lemma CountsOfListed(cat: Catalog, keepCount: int, candidates: seq<Candidate>)
    requires ListsPrunable(cat, keepCount, cat.documents.Keys, candidates)
    ensures Expected(candidates) == Sum(CountsOf(cat.versions, PrunableSet(cat, keepCount)))
  {
    ListedKeys(cat, keepCount, candidates);
    CountsOfDistinct(cat.versions, candidates);
  }

  lemma RowsRemoved(versions: Versions, gone: set<VerKey>)
    requires gone <= versions.Keys
    ensures |versions - gone| == |versions| - |gone|
  {
    assert (versions - gone).Keys == versions.Keys - gone;
    assert |versions.Keys - gone| == |versions.Keys| - |gone|;
  }

  /** What one more candidate takes. */
  lemma CandidateNext(s: Stock, candidates: seq<Candidate>, i: nat, physical: string -> string)
    requires i < |candidates|
    ensures var before, after, key := KeysOf(candidates[..i]), KeysOf(candidates[..i + 1]), candidates[i].key;
            && DropPoints(DropPoints(s.points, before, physical), {key}, physical) ==
                DropPoints(s.points, after, physical)
            && DropNodes(DropNodes(s.nodes, GraphsOf(before)), {GraphOf(key)}) == DropNodes(s.nodes, GraphsOf(after))
  {
    KeysOfNext(candidates, i);
    DropPointsNext(s.points, KeysOf(candidates[..i]), candidates[i].key, physical);
    DropNodesNext(s.nodes, KeysOf(candidates[..i]), candidates[i].key);
  }

  /** What is done when life ends at candidate i, before or after its points. */
  lemma StoppedAt(s: Stock, candidates: seq<Candidate>, i: nat, left: nat, physical: string -> string)
    requires i < |candidates|
    ensures left < 2 ==>
              var done := PrunedFor(s, candidates, 2 * i + left, physical);
              && done.points == DropPoints(s.points, KeysOf(candidates[..i + left]), physical)
              && done.nodes == DropNodes(s.nodes, GraphsOf(KeysOf(candidates[..i])))
  {
  }

  lemma NothingDropped(s: Stock, candidates: seq<Candidate>, physical: string -> string)
    ensures DropPoints(s.points, KeysOf(candidates[..0]), physical) == s.points
    ensures DropNodes(s.nodes, GraphsOf(KeysOf(candidates[..0]))) == s.nodes
  {
  }

  lemma AllDropped(s: Stock, candidates: seq<Candidate>, alive: nat, physical: string -> string)
    ensures candidates[..|candidates|] == candidates
    ensures alive >= 2 * |candidates| ==>
              var done := PrunedFor(s, candidates, alive, physical);
              && done.points == DropPoints(s.points, KeysOf(candidates[..|candidates|]), physical)
              && done.nodes == DropNodes(s.nodes, GraphsOf(KeysOf(candidates[..|candidates|])))
  {
  }

  class Pruner {
    const physical: string -> string
    const catalog: InMemoryCatalogStore
    var points: Points
    var nodes: Nodes

    function Value(): Stock
      reads this, catalog
    {
      Stock(points, nodes, catalog.Value())
    }

    constructor (physical: string -> string, catalog: InMemoryCatalogStore, points: Points, nodes: Nodes)
      ensures this.physical == physical && this.catalog == catalog && this.points == points && this.nodes == nodes
    {
      this.physical, this.catalog, this.points, this.nodes := physical, catalog, points, nodes;
    }

    /** Qdrant's delete by filter; it reports the number it was told to expect. */
    method DeleteVersion(key: VerKey, expected: int) returns (deleted: int)
      modifies this`points
      ensures points == DropPoints(old(points), {key}, physical) && deleted == expected
    {
      points := map id | id in points && !(id.physical == physical(key.doc.tenant) && PointVersion(points[id]) == key)
                :: points[id];
      deleted := expected;
    }

    /** Neo4j's delete by tenant, document and version; it reports the nodes it removed. */
    method PruneVersion(key: VerKey) returns (deleted: int)
      modifies this`nodes
      ensures nodes == DropNodes(old(nodes), {GraphOf(key)}) && deleted == |old(nodes)| - |nodes|
    {
      var before := |nodes|;
      nodes := map id | id in nodes && NodeGraph(id, nodes[id]) != GraphOf(key) :: nodes[id];
      deleted := before - |nodes|;
    }

    /** prune_versions, in a process that lives for `alive` more deletes.  A dry run lists the
        prunable versions and changes nothing.  A real run carries out that many deletes, and
        one that gets to its end has pruned everything and reports what it removed. */
    method PruneVersions(keepCount: int, dryRun: bool, alive: nat)
      returns (r: Outcome, ghost candidates: seq<Candidate>)
      modifies this, catalog
      ensures ListsPrunable(old(catalog.Value()), keepCount, old(catalog.documents).Keys, candidates)
      ensures dryRun ==> r == Finished(DryRun(candidates)) && Value() == old(Value())
      ensures !dryRun ==> Value() == PrunedFor(old(Value()), candidates, alive, physical)
      ensures !dryRun ==> (r.Finished? <==> alive > 2 * |candidates|)
      ensures !dryRun && r.Finished? ==>
                var gone := PrunableSet(old(catalog.Value()), keepCount);
                && Value() == Pruned(old(Value()), keepCount, physical)
                && r.report ==
                    Removed(|gone|, Sum(CountsOf(old(catalog.versions), gone)), |old(nodes)| - |nodes|, |gone|)
    {
      var listed := catalog.ListPrunableVersions(keepCount);
      candidates := listed;
      if dryRun { return Finished(DryRun(listed)), listed; }
      ghost var before := Value();
      ListedKeys(before.catalog, keepCount, listed);
      CandidatesAreDistinct(listed);
      CountsOfListed(before.catalog, keepCount, listed);
      var ok, qdrantPoints, neo4jNodes := PruneStores(listed, alive);
      if !ok || alive == 2 * |listed| { return Died, listed; }
      RowsRemoved(before.catalog.versions, PrunableSet(before.catalog, keepCount));
      WholePrune(before, listed, alive, keepCount, physical);
      var rows := catalog.DeleteVersions(listed);
      return Finished(Removed(|listed|, qdrantPoints, neo4jNodes, rows)), listed;
    }

    /** The loop over the candidates, which leaves the catalog alone. */
    method PruneStores(candidates: seq<Candidate>, alive: nat) returns (ok: bool, qdrantPoints: int, neo4jNodes: int)
      modifies this
      ensures points == PrunedFor(old(Value()), candidates, alive, physical).points
      ensures nodes == PrunedFor(old(Value()), candidates, alive, physical).nodes
      ensures ok <==> alive >= 2 * |candidates|
      ensures ok ==> qdrantPoints == Expected(candidates) && neo4jNodes == |old(nodes)| - |nodes|
    {
      var left: nat := alive;
      qdrantPoints, neo4jNodes := 0, 0;
      NothingDropped(Value(), candidates, physical);
      AllDropped(Value(), candidates, alive, physical);
      for i := 0 to |candidates|
        invariant alive == 2 * i + left
        invariant points == DropPoints(old(points), KeysOf(candidates[..i]), physical)
        invariant nodes == DropNodes(old(nodes), GraphsOf(KeysOf(candidates[..i])))
        invariant qdrantPoints == Expected(candidates[..i])
        invariant neo4jNodes == |old(nodes)| - |nodes|
      {
        ExpectedNext(candidates, i);
        var p, n := PruneCandidate(candidates, i, left, old(Value()));
        if left < 2 { return false, qdrantPoints, neo4jNodes; }
        qdrantPoints, neo4jNodes, left := qdrantPoints + p, neo4jNodes + n, left - 2;
      }
      ok := true;
    }

    /** Candidate i: its points and then its nodes, as far as life lasts. */
    method PruneCandidate(candidates: seq<Candidate>, i: nat, left: nat, ghost s: Stock)
      returns (qdrantPoints: int, neo4jNodes: int)
      requires i < |candidates|
      requires points == DropPoints(s.points, KeysOf(candidates[..i]), physical)
      requires nodes == DropNodes(s.nodes, GraphsOf(KeysOf(candidates[..i])))
      modifies this
      ensures left < 2 ==> points == PrunedFor(s, candidates, 2 * i + left, physical).points
      ensures left < 2 ==> nodes == PrunedFor(s, candidates, 2 * i + left, physical).nodes
      ensures left >= 2 ==> points == DropPoints(s.points, KeysOf(candidates[..i + 1]), physical)
      ensures left >= 2 ==> nodes == DropNodes(s.nodes, GraphsOf(KeysOf(candidates[..i + 1])))
      ensures left >= 2 ==> qdrantPoints == candidates[i].chunkCount && neo4jNodes == |old(nodes)| - |nodes|
    {
      var version := candidates[i];
      StoppedAt(s, candidates, i, left, physical);
      CandidateNext(s, candidates, i, physical);
      qdrantPoints, neo4jNodes := 0, 0;
      if left == 0 { return; }
      qdrantPoints := DeleteVersion(version.key, version.chunkCount);
      if left == 1 { return; }
      neo4jNodes := PruneVersion(version.key);
    }
  }

  // ----- interruption -----

  /** A prune that lives long enough is a whole one. */
  lemma WholePrune(s: Stock, candidates: seq<Candidate>, alive: nat, keepCount: int, physical: string -> string)
    requires ListsPrunable(s.catalog, keepCount, s.catalog.documents.Keys, candidates) && alive > 2 * |candidates|
    ensures PrunedFor(s, candidates, alive, physical) == Pruned(s, keepCount, physical)
  {
    ListedKeys(s.catalog, keepCount, candidates);
    assert candidates[..|candidates|] == candidates;
  }

  /** Some of what a prune of s removes is gone, and the catalog is as it was. */
  ghost predicate Partly(s: Stock, now: Stock, keepCount: int, physical: string -> string) {
    var gone := PrunableSet(s.catalog, keepCount);
    && now.catalog == s.catalog
    && DropPoints(now.points, gone, physical) == DropPoints(s.points, gone, physical)
    && DropNodes(now.nodes, GraphsOf(gone)) == DropNodes(s.nodes, GraphsOf(gone))
  }

  lemma DropSomeFirst(s: Stock, some: set<VerKey>, others: set<VerKey>, gone: set<VerKey>, physical: string -> string)
    requires some <= gone && others <= gone
    ensures DropPoints(DropPoints(s.points, some, physical), gone, physical) == DropPoints(s.points, gone, physical)
    ensures DropNodes(DropNodes(s.nodes, GraphsOf(others)), GraphsOf(gone)) == DropNodes(s.nodes, GraphsOf(gone))
  {
    assert forall key :: key in others ==> GraphOf(key) in GraphsOf(gone);
  }

  /** A prune cut short leaves part of the work to do, and one that is not leaves none. */
  lemma CutKeepsPartly(s: Stock, now: Stock, candidates: seq<Candidate>, alive: nat, keepCount: int,
                       physical: string -> string)
    requires Partly(s, now, keepCount, physical)
    requires ListsPrunable(now.catalog, keepCount, now.catalog.documents.Keys, candidates)
    ensures var after := PrunedFor(now, candidates, alive, physical);
            if alive > 2 * |candidates| then after == Pruned(s, keepCount, physical)
            else Partly(s, after, keepCount, physical)
  {
    var gone := PrunableSet(s.catalog, keepCount);
    ListedKeys(now.catalog, keepCount, candidates);
    if alive > 2 * |candidates| {
      WholePrune(now, candidates, alive, keepCount, physical);
    } else {
      var some, others := candidates[..Min((alive + 1) / 2, |candidates|)], candidates[..Min(alive / 2, |candidates|)];
      assert KeysOf(some) <= KeysOf(candidates) && KeysOf(others) <= KeysOf(candidates);
      DropSomeFirst(now, KeysOf(some), KeysOf(others), gone, physical);
    }
  }

  /** One run of a prune: what it listed, and how many deletes its process lived for. */
  datatype Attempt = Attempt(candidates: seq<Candidate>, alive: nat)

  function Interrupted(s: Stock, attempts: seq<Attempt>, physical: string -> string): Stock {
    if attempts == [] then s
    else
      var last := attempts[|attempts| - 1];
      PrunedFor(Interrupted(s, attempts[..|attempts| - 1], physical), last.candidates, last.alive, physical)
  }

  /** Each run listed what was prunable when it started. */
  ghost predicate Listed(s: Stock, attempts: seq<Attempt>, keepCount: int, physical: string -> string) {
    forall i :: 0 <= i < |attempts| ==>
      var cat := Interrupted(s, attempts[..i], physical).catalog;
      ListsPrunable(cat, keepCount, cat.documents.Keys, attempts[i].candidates)
  }

  predicate WasCut(a: Attempt) { a.alive <= 2 * |a.candidates| }

  lemma NothingLeft(s: Stock, keepCount: int, candidates: seq<Candidate>, alive: nat, physical: string -> string)
    requires keepCount >= 0
    requires var cat := Pruned(s, keepCount, physical).catalog;
             ListsPrunable(cat, keepCount, cat.documents.Keys, candidates)
    ensures PrunedFor(Pruned(s, keepCount, physical), candidates, alive, physical) == Pruned(s, keepCount, physical)
  {
    var done := Pruned(s, keepCount, physical);
    assert candidates != [] ==> candidates[0].key in KeysOf(candidates);
    SecondPruneFindsNothing(s.catalog, keepCount);
    ListedKeys(done.catalog, keepCount, candidates);
    assert DropPoints(done.points, {}, physical) == done.points && DropNodes(done.nodes, GraphsOf({})) == done.nodes;
    assert Without(done.catalog, {}) == done.catalog;
  }

  /** After any runs either everything is pruned or only the rest of it is left to do. */
  lemma {:induction false} InterruptedIsPartly(s: Stock, attempts: seq<Attempt>, keepCount: int,
                                               physical: string -> string)
    requires Listed(s, attempts, keepCount, physical)
    requires keepCount >= 0 || forall i :: 0 <= i < |attempts| ==> WasCut(attempts[i])
    ensures var now := Interrupted(s, attempts, physical);
            Partly(s, now, keepCount, physical) || (keepCount >= 0 && now == Pruned(s, keepCount, physical))
  {
    if attempts != [] {
      var front, last := attempts[..|attempts| - 1], attempts[|attempts| - 1];
      forall i | 0 <= i < |front| ensures front[..i] == attempts[..i] {}
      assert forall i :: 0 <= i < |front| ==> front[i] == attempts[i];
      InterruptedIsPartly(s, front, keepCount, physical);
      var before := Interrupted(s, front, physical);
      assert attempts[..|attempts| - 1] == front;
      assert ListsPrunable(before.catalog, keepCount, before.catalog.documents.Keys, last.candidates);
      if Partly(s, before, keepCount, physical) {
        CutKeepsPartly(s, before, last.candidates, last.alive, keepCount, physical);
      } else {
        NothingLeft(s, keepCount, last.candidates, last.alive, physical);
      }
    }
  }

  /** However many runs of a prune died, and wherever each did, a run that gets to its end
      leaves catalog, points and nodes as one undisturbed prune would have; with a negative
      keep_count provided that none of the others had got to its own end. */
  lemma InterruptedPruneConverges(s: Stock, attempts: seq<Attempt>, last: Attempt, keepCount: int,
                                  physical: string -> string)
    requires Listed(s, attempts + [last], keepCount, physical) && !WasCut(last)
    requires keepCount >= 0 || forall i :: 0 <= i < |attempts| ==> WasCut(attempts[i])
    ensures Interrupted(s, attempts + [last], physical) == Pruned(s, keepCount, physical)
  {
    var all := attempts + [last];
    assert all[..|attempts|] == attempts && all[|attempts|] == last;
    forall i | 0 <= i < |attempts| ensures attempts[..i] == all[..i] && attempts[i] == all[i] {}
    InterruptedIsPartly(s, attempts, keepCount, physical);
    var before := Interrupted(s, attempts, physical);
    if Partly(s, before, keepCount, physical) {
      CutKeepsPartly(s, before, last.candidates, last.alive, keepCount, physical);
    } else {
      NothingLeft(s, keepCount, last.candidates, last.alive, physical);
    }
  }

  // ----- what goes with a version, and what does not -----

  /** A node of a version that is kept goes all the same exactly when a version of the same
      tenant, document id and version id is pruned in another collection. */
  lemma CollateralNodes(s: Stock, keepCount: int, physical: string -> string, kept: VerKey, id: NodeId)
    requires kept !in PrunableSet(s.catalog, keepCount)
    requires id in s.nodes && NodeGraph(id, s.nodes[id]) == GraphOf(kept)
    ensures id !in Pruned(s, keepCount, physical).nodes <==>
            exists key :: key in PrunableSet(s.catalog, keepCount)
                          && GraphOf(key) == GraphOf(kept) && key.doc.collection != kept.doc.collection
  {
    var gone := PrunableSet(s.catalog, keepCount);
    if GraphOf(kept) in GraphsOf(gone) {
      var key :| key in gone && GraphOf(key) == GraphOf(kept);
      assert key.doc.collection == kept.doc.collection ==> key == kept;
    }
  }

  /** Three ingested chunks: two versions of a document, and the older one's ids once more in
      another collection.  Pruning to one version takes the node of the kept third. */
  lemma KeptVersionLosesNode(physical: string -> string)
    ensures var a := Chunk("1", "t", "c1", "d", "v1", "", "x", "", "1");
            var b := Chunk("2", "t", "c1", "d", "v2", "", "y", "", "2");
            var c := Chunk("3", "t", "c2", "d", "v1", "", "z", "", "3");
            var cat := Record(Catalog(map[], map[]), [a, b, c], "", "");
            var s := Stock(map[], map[NodeEntry(c).0 := NodeEntry(c).1], cat);
            && Coherent(cat) && KeyOf(c) in cat.versions && KeyOf(c) in Pruned(s, 1, physical).catalog.versions
            && NodeEntry(c).0 !in Pruned(s, 1, physical).nodes
  {
    var a := Chunk("1", "t", "c1", "d", "v1", "", "x", "", "1");
    var b := Chunk("2", "t", "c1", "d", "v2", "", "y", "", "2");
    var c := Chunk("3", "t", "c2", "d", "v1", "", "z", "", "3");
    var empty := Catalog(map[], map[]);
    var cat := Record(empty, [a, b, c], "", "");
    var s := Stock(map[], map[NodeEntry(c).0 := NodeEntry(c).1], cat);
    RecordKeepsCoherent(empty, [a, b, c], "", "");
    assert "v1"[1] != "v2"[1] && "c1"[1] != "c2"[1];
    FirstIsPrunable(a, b, c, cat);
    CollateralNodes(s, 1, physical, KeyOf(c), NodeEntry(c).0);
  }

  /** Two versions of one document and a third chunk elsewhere: keeping one version prunes the older. */
  lemma FirstIsPrunable(a: Chunk, b: Chunk, c: Chunk, cat: Catalog)
    requires Placed(a) && Placed(b) && Placed(c) && KeyOf(a) != KeyOf(b) && KeyOf(a) != KeyOf(c) && KeyOf(b) != KeyOf(c)
    requires KeyOf(a).doc == KeyOf(b).doc != KeyOf(c).doc && a.ingestedAt == "1" && b.ingestedAt == "2"
    requires cat == Record(Catalog(map[], map[]), [a, b, c], "", "")
    ensures KeyOf(a) in PrunableSet(cat, 1) && KeyOf(c) in cat.versions && KeyOf(c) !in PrunableSet(cat, 1)
  {
    ThreeRecorded(a, b, c, cat);
    assert KeyOf(b) in Newer(cat.versions, KeyOf(a));
    SubsetSize({KeyOf(b)}, Newer(cat.versions, KeyOf(a)));
    assert Prunable(cat, 1, KeyOf(a)) && !Prunable(cat, 1, KeyOf(c));
  }

  lemma ThreeGroups(a: Chunk, b: Chunk, c: Chunk)
    requires Placed(a) && Placed(b) && Placed(c) && KeyOf(a) != KeyOf(b) && KeyOf(a) != KeyOf(c) && KeyOf(b) != KeyOf(c)
    ensures GroupOrder([a, b, c]) == [KeyOf(a), KeyOf(b), KeyOf(c)]
  {
    BatchSnoc([], a, "");
    BatchSnoc([a], b, "");
    BatchSnoc([a, b], c, "");
    assert [] + [a] == [a] && [a] + [b] == [a, b] && [a, b] + [c] == [a, b, c];
  }

  lemma ThreeRecorded(a: Chunk, b: Chunk, c: Chunk, cat: Catalog)
    requires Placed(a) && Placed(b) && Placed(c) && KeyOf(a) != KeyOf(b) && KeyOf(a) != KeyOf(c) && KeyOf(b) != KeyOf(c)
    requires KeyOf(a).doc == KeyOf(b).doc != KeyOf(c).doc
    requires a.ingestedAt != "" && b.ingestedAt != "" && cat == Record(Catalog(map[], map[]), [a, b, c], "", "")
    ensures KeyOf(a) in cat.versions && KeyOf(b) in cat.versions && KeyOf(c) in cat.versions
    ensures cat.versions[KeyOf(a)].ingestedAt == a.ingestedAt && cat.versions[KeyOf(b)].ingestedAt == b.ingestedAt
    ensures KeyOf(a).doc in cat.documents && cat.documents[KeyOf(a).doc].latest == KeyOf(b).version
    ensures KeyOf(c).doc in cat.documents && cat.documents[KeyOf(c).doc].latest == KeyOf(c).version
  {
    var chunks, order := [a, b, c], [KeyOf(a), KeyOf(b), KeyOf(c)];
    ThreeGroups(a, b, c);
    RecordMeans(Catalog(map[], map[]), chunks, "", "");
    assert order[0] in order && order[1] in order && order[2] in order;
    MembersMean(chunks, order[0], Members(chunks, order[0])[0]);
    MembersMean(chunks, order[1], Members(chunks, order[1])[0]);
    LastAmong(order, KeyOf(a).doc, 1);
    LastAmong(order, KeyOf(c).doc, 2);
  }

  lemma LastAmong(order: seq<VerKey>, doc: DocKey, i: nat)
    requires i < |order| && order[i].doc == doc && forall j :: i < j < |order| ==> order[j].doc != doc
    ensures LastOf(order, doc) == i
  {
  }

  /** A point is left by a prune exactly when it is not where its tenant is served now, its chunk
      named no version (the catalog calls that v1, but points are matched as they are), or the
      version it names is not prunable; and what is left is as it was. */
  lemma PointStaysIff(s: Stock, keepCount: int, physical: string -> string, id: PointId)
    requires id in s.points && VersionsNamed(s.catalog)
    ensures var c := s.points[id].payload;
            id in Pruned(s, keepCount, physical).points <==>
              || id.physical != physical(c.tenant) || c.version == ""
              || !Prunable(s.catalog, keepCount, VerKey(DocKey(c.tenant, c.collection, c.document), c.version))
    ensures id in Pruned(s, keepCount, physical).points ==> Pruned(s, keepCount, physical).points[id] == s.points[id]
  {
    var p := s.points[id];
    if p.payload.version == "" { assert PointVersion(p) !in PrunableSet(s.catalog, keepCount); }
  }

  /** A node is left exactly when no prunable version has its tenant, document and version,
      in whatever collection. */
  lemma NodeStaysIff(s: Stock, keepCount: int, physical: string -> string, id: NodeId)
    requires id in s.nodes
    ensures id in Pruned(s, keepCount, physical).nodes <==>
            !exists key :: Prunable(s.catalog, keepCount, key) && key.doc.tenant == id.tenant
                           && key.doc.document == s.nodes[id].document && key.version == s.nodes[id].version
    ensures id in Pruned(s, keepCount, physical).nodes ==> Pruned(s, keepCount, physical).nodes[id] == s.nodes[id]
  {
    var gone := PrunableSet(s.catalog, keepCount);
    if key :| Prunable(s.catalog, keepCount, key) && key.doc.tenant == id.tenant
              && key.doc.document == s.nodes[id].document && key.version == s.nodes[id].version {
      assert key in gone && GraphOf(key) == NodeGraph(id, s.nodes[id]);
    }
  }

  /** The point of a pruned version stays behind exactly when it is not where its tenant is
      served now, or its chunk named no version. */
  lemma PrunedPointStaysIff(s: Stock, keepCount: int, physical: string -> string, id: PointId)
    requires id in s.points && KeyOf(s.points[id].payload) in PrunableSet(s.catalog, keepCount)
    requires VersionsNamed(s.catalog)
    ensures id in Pruned(s, keepCount, physical).points <==>
            id.physical != physical(s.points[id].payload.tenant) || s.points[id].payload.version == ""
  {
    PointStaysIff(s, keepCount, physical, id);
  }

  /** The node a chunk of a pruned version was merged into stays behind exactly when the chunk
      named no version: nodes are matched as they are too. */
  lemma PrunedNodeStaysIff(s: Stock, keepCount: int, physical: string -> string, c: Chunk)
    requires NodeEntry(c).0 in s.nodes && s.nodes[NodeEntry(c).0] == NodeEntry(c).1
    requires KeyOf(c) in PrunableSet(s.catalog, keepCount) && VersionsNamed(s.catalog)
    ensures NodeEntry(c).0 in Pruned(s, keepCount, physical).nodes <==> c.version == ""
  {
    NodeStaysIff(s, keepCount, physical, NodeEntry(c).0);
    assert Prunable(s.catalog, keepCount, KeyOf(c));
  }

  /** A prune never strands what it has not yet removed: wherever it dies, the nodes of a
      candidate are gone only when its points are, and its catalog row, by which a later prune
      finds it, only when the points and nodes of every candidate are. */
  lemma RowsGoLast(s: Stock, candidates: seq<Candidate>, alive: nat, physical: string -> string)
    returns (p: nat, n: nat)
    ensures n <= p <= |candidates|
    ensures var now := PrunedFor(s, candidates, alive, physical);
            && now.points == DropPoints(s.points, set c | c in candidates[..p] :: c.key, physical)
            && now.nodes == DropNodes(s.nodes, GraphsOf(set c | c in candidates[..n] :: c.key))
            && (now.catalog != s.catalog ==>
                  && n == |candidates| && now.catalog.documents == s.catalog.documents
                  && now.catalog.versions == s.catalog.versions - set c | c in candidates :: c.key)
  {
    p, n := Min((alive + 1) / 2, |candidates|), Min(alive / 2, |candidates|);
  }

  /** Such a chunk, ingested before a newer version of its document: a prune to one version
      drops its catalog row and leaves its point and its node. */
  lemma NamelessVersionStays(physical: string -> string)
    ensures var a := Chunk("1", "t", "c1", "d", "", "", "x", "", "1");
            var b := Chunk("2", "t", "c1", "d", "v2", "", "y", "", "2");
            var c := Chunk("3", "t", "c2", "d", "v1", "", "z", "", "3");
            var cat := Record(Catalog(map[], map[]), [a, b, c], "", "");
            var id := PointId(physical("t"), "1");
            var s := Stock(map[id := Point(a, [])], map[NodeEntry(a).0 := NodeEntry(a).1], cat);
            && KeyOf(a) in cat.versions && KeyOf(a) !in Pruned(s, 1, physical).catalog.versions
            && id in Pruned(s, 1, physical).points && NodeEntry(a).0 in Pruned(s, 1, physical).nodes
  {
    var a := Chunk("1", "t", "c1", "d", "", "", "x", "", "1");
    var b := Chunk("2", "t", "c1", "d", "v2", "", "y", "", "2");
    var c := Chunk("3", "t", "c2", "d", "v1", "", "z", "", "3");
    var empty := Catalog(map[], map[]);
    var cat := Record(empty, [a, b, c], "", "");
    var id := PointId(physical("t"), "1");
    var s := Stock(map[id := Point(a, [])], map[NodeEntry(a).0 := NodeEntry(a).1], cat);
    assert "v1"[1] != "v2"[1] && "c1"[1] != "c2"[1];
    FirstIsPrunable(a, b, c, cat);
    RecordKeepsNamed(empty, [a, b, c], "", "");
    PrunedPointStaysIff(s, 1, physical, id);
    PrunedNodeStaysIff(s, 1, physical, a);
  }
}
