/** write_chunks (ingest/app/writers.py) step by step, proved to carry out its program. */
module IngestWriters {
  import opened PythonLists
  import opened Options
  import opened MapWrites
  import opened SetSizes
  import opened CatalogSpec
  import opened StoreData
  import opened CatalogStores
  import opened IngestWrites

  /** What a finished call reports. */
  datatype Report = Report(written: nat, validated: nat, skippedDedup: nat, neo4jWritten: nat, documentsRecorded: nat)

  /** A call died, or raised; or it finished. */
  datatype Outcome = Died | Finished(report: Report)

  /** Every unseen chunk is written once, every other is skipped; a stub writes and skips none. */
  function ReportOf(valid: seq<Chunk>, unseen: seq<Chunk>, cfg: Config): Report
    requires |unseen| <= |valid|
  {
    Report(if cfg.stub || cfg.upsertBatch <= 0 then 0 else |unseen|, |valid|, |valid| - |unseen|,
           if cfg.stub || cfg.unwindBatch <= 0 then 0 else |unseen|, |GroupOrder(valid)|)
  }

  /** What the report says of a batch: how many chunks have a uuid and text; how many of them
      were known, how many new ones reached each store, and how many versions they are of.
      A stub knows and writes none. */
  lemma ReportCounts(keys: map<string, string>, chunks: seq<Chunk>, cfg: Config)
    ensures var valid := Filter(chunks, (c: Chunk) => c.uuid != "" && c.text != "");
            var known := Filter(valid, (c: Chunk) => !cfg.stub && cfg.dedup && DedupKey(c, cfg) in keys
                                                     && keys[DedupKey(c, cfg)] != "");
            var r := ReportOf(valid, if cfg.stub then valid else Unseen(keys, valid, cfg), cfg);
            && Filter(chunks, Valid) == valid
            && r.validated == |valid| && r.skippedDedup == |known|
            && r.written == (if cfg.stub || cfg.upsertBatch <= 0 then 0 else |valid| - |known|)
            && r.neo4jWritten == (if cfg.stub || cfg.unwindBatch <= 0 then 0 else |valid| - |known|)
            && r.documentsRecorded == |set c | c in valid && Placed(c) :: KeyOf(c)|
  {
    var valid := Filter(chunks, (c: Chunk) => c.uuid != "" && c.text != "");
    FilterSame(chunks, Valid, (c: Chunk) => c.uuid != "" && c.text != "");
    UnseenAreTheRest(keys, valid, cfg);
    FilterSame(valid, (c: Chunk) => !cfg.stub && cfg.dedup && Known(keys, c, cfg),
               (c: Chunk) => !cfg.stub && cfg.dedup && DedupKey(c, cfg) in keys && keys[DedupKey(c, cfg)] != "");
    GroupsAreVersions(valid);
  }

  lemma UnseenAreTheRest(keys: map<string, string>, valid: seq<Chunk>, cfg: Config)
    ensures var known := Filter(valid, (c: Chunk) => !cfg.stub && cfg.dedup && Known(keys, c, cfg));
            |valid| - |if cfg.stub then valid else Unseen(keys, valid, cfg)| == |known|
  {
    var known := (c: Chunk) => !cfg.stub && cfg.dedup && Known(keys, c, cfg);
    if !cfg.stub && cfg.dedup {
      FilterSplits(valid, known, c => !Known(keys, c, cfg));
    } else {
      NoneKept(valid, known);
    }
  }

  lemma {:induction false} FilterSplits<T>(xs: seq<T>, p: T -> bool, q: T -> bool)
    requires forall x :: x in xs ==> q(x) == !p(x)
    ensures |Filter(xs, p)| + |Filter(xs, q)| == |xs|
  {
    if xs != [] { FilterSplits(xs[..|xs| - 1], p, q); }
  }

  lemma GroupsAreVersions(chunks: seq<Chunk>)
    ensures |GroupOrder(chunks)| == |set c | c in chunks && Placed(c) :: KeyOf(c)|
  {
    var order := GroupOrder(chunks);
    GroupOrderMeans(chunks);
    ImageSize(order, |order|, (key: VerKey) => key);
    var keys := set c | c in chunks && Placed(c) :: KeyOf(c);
    forall key ensures key in Image(order, |order|, (key: VerKey) => key) <==> key in keys {
      assert key in Image(order, |order|, (key: VerKey) => key) <==> key in order;
      assert key in order <==> exists c :: c in chunks && In(c, key);
    }
    assert Image(order, |order|, (key: VerKey) => key) == keys;
  }

  /** From `before`, a process with `alive` operations to live has run the program as far as
      it could, got to its end or not, and has `left` operations to live if it did. */
  ghost predicate Ran(before: Stores, after: Stores, p: Program, alive: nat, ok: bool, left: nat) {
    && after == Exec(before, Done(p, alive))
    && (ok <==> !p.raises && alive >= |p.effects|)
    && (ok ==> left == alive - |p.effects|)
  }

  /** What a process with `alive` operations to live has done of the whole, whether it got to
      the end, and how many operations it has left if it did. */
  ghost predicate WasCut(whole: Program, done: seq<Effect>, alive: nat, ok: bool, left: nat) {
    && done == Done(whole, alive)
    && (ok <==> !whole.raises && alive >= |whole.effects|)
    && (ok ==> left == alive - |whole.effects|)
  }

  /** The effects so far and the program still to run make up the whole. */
  ghost predicate Remains(whole: Program, done: seq<Effect>, rest: Program) {
    whole == Program(done + rest.effects, rest.raises)
  }

  lemma OneMoreDone(whole: Program, done: seq<Effect>, e: Effect, rest: Program)
    requires Remains(whole, done, Then(Program([e], false), rest))
    ensures Remains(whole, done + [e], rest)
  {
    assert done + ([e] + rest.effects) == (done + [e]) + rest.effects;
  }

  /** The process died with its life used up, or the rest of the program raises at once. */
  lemma StopsHere(whole: Program, done: seq<Effect>, rest: Program, left: nat)
    requires Remains(whole, done, rest)
    requires if left == 0 then rest.effects != [] || rest.raises else rest == Program([], true)
    ensures WasCut(whole, done, |done| + left, false, left)
  {
    assert Done(whole, |done| + left) == done;
  }

  lemma EndsHere(whole: Program, done: seq<Effect>, left: nat)
    requires Remains(whole, done, Program([], false))
    ensures WasCut(whole, done, |done| + left, true, left)
  {
    assert Done(whole, |done| + left) == done;
  }

  /** The upsert loop at one of its batches: it stops there, or has one more effect done. */
  lemma NextPut(whole: Program, done: seq<Effect>, physical: string, chunks: seq<Chunk>, dense: seq<Vector>,
                start: nat, size: nat, left: nat)
    requires size >= 1 && start < |chunks|
    requires Remains(whole, done, UpsertFrom(physical, chunks, dense, start, size))
    ensures var cs, ds := Window(chunks, start, size), Window(dense, start, size);
            if |cs| != |ds| || left == 0 then WasCut(whole, done, |done| + left, false, left)
            else Remains(whole, done + [PutPoints(physical, PointsOf(cs, ds))],
                         UpsertFrom(physical, chunks, dense, start + size, size))
  {
    var cs, ds := Window(chunks, start, size), Window(dense, start, size);
    var rest := UpsertFrom(physical, chunks, dense, start, size);
    if |cs| != |ds| || left == 0 {
      StopsHere(whole, done, rest, left);
    } else {
      OneMoreDone(whole, done, PutPoints(physical, PointsOf(cs, ds)),
                  UpsertFrom(physical, chunks, dense, start + size, size));
    }
  }

  /** The merge loop at one of its batches. */
  lemma NextMerge(whole: Program, done: seq<Effect>, chunks: seq<Chunk>, start: nat, size: nat, left: nat)
    requires size >= 1 && start < |chunks| && Remains(whole, done, MergeFrom(chunks, start, size))
    ensures if left == 0 then WasCut(whole, done, |done| + left, false, left)
            else Remains(whole, done + [MergeNodes(Window(chunks, start, size))], MergeFrom(chunks, start + size, size))
  {
    if left == 0 {
      StopsHere(whole, done, MergeFrom(chunks, start, size), left);
    } else {
      OneMoreDone(whole, done, MergeNodes(Window(chunks, start, size)), MergeFrom(chunks, start + size, size));
    }
  }

  /** Entries gathered from one more effect, assigned after the others. */
  lemma AssignOneMore<K, V>(m: map<K, V>, done: seq<Effect>, e: Effect, pick: Effect -> seq<(K, V)>)
    ensures Assign(Assign(m, Gather(done, pick)), pick(e)) == Assign(m, Gather(done + [e], pick))
  {
    assert (done + [e])[..|done|] == done;
    AssignAppend(m, Gather(done, pick), pick(e));
  }

  /** `reach` says what a store holds after some requests, one request at a time. */
  ghost predicate Accumulates<K(!new), V(!new)>(reach: seq<Effect> -> map<K, V>, pick: Effect -> seq<(K, V)>) {
    forall done, e :: reach(done + [e]) == Assign(reach(done), pick(e))
  }

  ghost function Reach<K, V>(m: map<K, V>, pick: Effect -> seq<(K, V)>): (reach: seq<Effect> -> map<K, V>)
    ensures forall done :: reach(done) == Assign(m, Gather(done, pick))
  {
    done => Assign(m, Gather(done, pick))
  }

  lemma ReachAccumulates<K(!new), V(!new)>(m: map<K, V>, pick: Effect -> seq<(K, V)>)
    ensures Accumulates(Reach(m, pick), pick) && Reach(m, pick)([]) == m
  {
    forall done, e ensures Reach(m, pick)(done + [e]) == Assign(Reach(m, pick)(done), pick(e)) {
      AssignOneMore(m, done, e, pick);
    }
  }

  lemma RanPoints(s: Stores, whole: Program, done: seq<Effect>, alive: nat, ok: bool, left: nat)
    requires WasCut(whole, done, alive, ok, left) && forall i :: 0 <= i < |done| ==> done[i].PutPoints?
    ensures Ran(s, s.(points := Assign(s.points, Gather(done, PointsIn))), whole, alive, ok, left)
  {
    ExecMeans(s, done);
    GatherNothing(done, NodesIn);
    GatherNothing(done, KeysIn);
  }

  lemma RanNodes(s: Stores, whole: Program, done: seq<Effect>, alive: nat, ok: bool, left: nat)
    requires WasCut(whole, done, alive, ok, left) && forall i :: 0 <= i < |done| ==> done[i].MergeNodes?
    ensures Ran(s, s.(nodes := Assign(s.nodes, Gather(done, NodesIn))), whole, alive, ok, left)
  {
    ExecMeans(s, done);
    GatherNothing(done, PointsIn);
    GatherNothing(done, KeysIn);
  }

  /** A second program runs on what life the first one left. */
  lemma RanThen(s0: Stores, s1: Stores, s2: Stores, a: Program, b: Program, alive: nat, left: nat, ok: bool, left2: nat)
    requires Ran(s0, s1, a, alive, true, left) && Ran(s1, s2, b, left, ok, left2)
    ensures Ran(s0, s2, Then(a, b), alive, ok, left2)
  {
    assert a.effects[..|a.effects|] == a.effects;
    assert Done(Then(a, b), alive) == a.effects + Done(b, left);
    ExecAppend(s0, a.effects, Done(b, left));
  }

  lemma RanStops(s0: Stores, s1: Stores, a: Program, b: Program, alive: nat, left: nat)
    requires Ran(s0, s1, a, alive, false, left)
    ensures Ran(s0, s1, Then(a, b), alive, false, left)
  {
    if !a.raises { assert Done(Then(a, b), alive) == Done(a, alive); }
  }

  lemma RanNothing(s: Stores, alive: nat, raises: bool)
    ensures Ran(s, s, Program([], raises), alive, !raises, alive)
  {
  }

  lemma RanOne(s: Stores, e: Effect, alive: nat)
    requires alive >= 1
    ensures Ran(s, Apply(s, e), Program([e], false), alive, true, alive - 1)
  {
    ExecOneMore(s, [], e);
    assert [] + [e] == [e];
  }

  lemma UnseenNext(keys: map<string, string>, chunks: seq<Chunk>, i: nat, cfg: Config)
    requires i < |chunks| && cfg.dedup
    ensures Unseen(keys, chunks[..i + 1], cfg) ==
            Unseen(keys, chunks[..i], cfg) + if Known(keys, chunks[i], cfg) then [] else [chunks[i]]
  {
    assert chunks[..i + 1][..i] == chunks[..i];
  }

  class IngestWriter {
    const cfg: Config
    const catalog: InMemoryCatalogStore
    var points: Points
    var nodes: Nodes
    var keys: map<string, string>

    function Value(): Stores
      reads this, catalog
    {
      Stores(points, nodes, keys, catalog.Value())
    }

    constructor (cfg: Config, catalog: InMemoryCatalogStore)
      ensures this.cfg == cfg && this.catalog == catalog
      ensures Value() == Stores(map[], map[], map[], catalog.Value())
    {
      this.cfg, this.catalog := cfg, catalog;
      points, nodes, keys := map[], map[], map[];
    }

    /** partition_deduped_chunks. */
    method PartitionDeduped(chunks: seq<Chunk>) returns (toWrite: seq<Chunk>, skipped: nat)
      ensures toWrite == Unseen(keys, chunks, cfg)
      ensures skipped == |chunks| - |toWrite|
    {
      if !cfg.dedup { return chunks, 0; }
      toWrite, skipped := [], 0;
      for i := 0 to |chunks|
        invariant toWrite == Unseen(keys, chunks[..i], cfg)
        invariant skipped == i - |toWrite|
      {
        UnseenNext(keys, chunks, i, cfg);
        if Known(keys, chunks[i], cfg) {
          skipped := skipped + 1;
        } else {
          toWrite := toWrite + [chunks[i]];
        }
      }
      assert chunks[..|chunks|] == chunks;
    }

    /** The embedding loop. */
    method EmbedAll(texts: seq<string>) returns (r: Option<seq<Vector>>)
      ensures r == Embedded(texts, cfg)
    {
      if cfg.embedBatch == 0 { return None; }
      if cfg.embedBatch < 0 { return Some([]); }
      var dense: seq<Vector> := [];
      var start: nat := 0;
      ghost var whole := EmbeddedFrom(texts, 0, cfg.embedBatch, cfg.embed);
      assert whole.Some? ==> [] + whole.value == whole.value;
      while start < |texts|
        invariant var rest := EmbeddedFrom(texts, start, cfg.embedBatch, cfg.embed);
                  whole == if rest.Some? then Some(dense + rest.value) else None
        decreases |texts| - start
      {
        var reply := cfg.embed(Window(texts, start, cfg.embedBatch));
        if reply.None? { return None; }
        ghost var rest := EmbeddedFrom(texts, start + cfg.embedBatch, cfg.embedBatch, cfg.embed);
        assert rest.Some? ==> dense + (reply.value + rest.value) == (dense + reply.value) + rest.value;
        dense := dense + reply.value;
        start := start + cfg.embedBatch;
      }
      assert dense + [] == dense;
      return Some(dense);
    }

    /** The batch at `start`, after the requests in `done`. */
    method PutBatch(physical: string, chunks: seq<Chunk>, dense: seq<Vector>, start: nat, size: nat, left: nat,
                    ghost reach: seq<Effect> -> Points, ghost whole: Program, ghost done: seq<Effect>)
      returns (ok: bool, written: nat, ghost done': seq<Effect>)
      requires size > 0 && start < |chunks|
      requires Remains(whole, done, UpsertFrom(physical, chunks, dense, start, size))
      requires Accumulates(reach, PointsIn) && points == reach(done)
      modifies this`points
      ensures points == reach(done')
      ensures if ok then left > 0 && |done'| == |done| + 1 && written == Min(start + size, |chunks|) - start
                         && Remains(whole, done', UpsertFrom(physical, chunks, dense, start + size, size))
              else WasCut(whole, done', |done| + left, false, left)
    {
      var batchChunks, batchDense := Window(chunks, start, size), Window(dense, start, size);
      NextPut(whole, done, physical, chunks, dense, start, size, left);
      if |batchChunks| != |batchDense| || left == 0 { return false, 0, done; }
      var put := PutPoints(physical, PointsOf(batchChunks, batchDense));
      points := Assign(points, PointsIn(put));
      return true, |batchChunks|, done + [put];
    }

    /** The merge request at `start`, after the requests in `done`. */
    method MergeBatch(chunks: seq<Chunk>, start: nat, size: nat, left: nat, ghost reach: seq<Effect> -> Nodes,
                      ghost whole: Program, ghost done: seq<Effect>)
      returns (ok: bool, merged: nat, ghost done': seq<Effect>)
      requires size > 0 && start < |chunks|
      requires Remains(whole, done, MergeFrom(chunks, start, size))
      requires Accumulates(reach, NodesIn) && nodes == reach(done)
      modifies this`nodes
      ensures nodes == reach(done')
      ensures if ok then left > 0 && |done'| == |done| + 1 && merged == Min(start + size, |chunks|) - start
                         && Remains(whole, done', MergeFrom(chunks, start + size, size))
              else WasCut(whole, done', |done| + left, false, left)
    {
      NextMerge(whole, done, chunks, start, size, left);
      if left == 0 { return false, 0, done; }
      var rows := Window(chunks, start, size);
      nodes := Assign(nodes, NodesIn(MergeNodes(rows)));
      return true, |rows|, done + [MergeNodes(rows)];
    }

    /** The batches of QdrantWriter.upsert_chunks. */
    method PutBatches(physical: string, chunks: seq<Chunk>, dense: seq<Vector>, size: nat, alive: nat,
                      ghost reach: seq<Effect> -> Points)
      returns (ok: bool, left: nat, written: nat, ghost done: seq<Effect>)
      requires size > 0 && Accumulates(reach, PointsIn) && points == reach([])
      modifies this`points
      ensures WasCut(UpsertFrom(physical, chunks, dense, 0, size), done, alive, ok, left)
      ensures points == reach(done)
      ensures ok ==> written == |chunks|
    {
      var start: nat := 0;
      left, written, done := alive, 0, [];
      ghost var whole := UpsertFrom(physical, chunks, dense, 0, size);
      while start < |chunks|
        invariant Remains(whole, done, UpsertFrom(physical, chunks, dense, start, size))
        invariant alive == |done| + left && points == reach(done)
        invariant written == Min(start, |chunks|)
        decreases |chunks| - start
      {
        var n;
        ok, n, done := PutBatch(physical, chunks, dense, start, size, left, reach, whole, done);
        if !ok { return; }
        left, written, start := left - 1, written + n, start + size;
      }
      EndsHere(whole, done, left);
      ok := true;
    }

    /** QdrantWriter.upsert_chunks, in a process that lives for `alive` more operations. */
    method UpsertChunks(chunks: seq<Chunk>, dense: seq<Vector>, alive: nat) returns (ok: bool, left: nat, written: nat)
      requires chunks != []
      modifies this`points
      ensures Ran(old(Value()), Value(), Upsert(chunks, dense, cfg), alive, ok, left)
      ensures ok ==> written == if cfg.upsertBatch > 0 then |chunks| else 0
    {
      if cfg.upsertBatch <= 0 { return cfg.upsertBatch < 0, alive, 0; }
      ghost var done;
      var physical := cfg.physical(chunks[0].tenant);
      UpsertOnlyPuts(physical, chunks, dense, 0, cfg.upsertBatch);
      ReachAccumulates(points, PointsIn);
      ok, left, written, done := PutBatches(physical, chunks, dense, cfg.upsertBatch, alive, Reach(points, PointsIn));
      RanPoints(old(Value()), Upsert(chunks, dense, cfg), done, alive, ok, left);
    }

    /** The batches of Neo4jWriter.merge_chunks. */
    method MergeBatches(chunks: seq<Chunk>, size: nat, alive: nat, ghost reach: seq<Effect> -> Nodes)
      returns (ok: bool, left: nat, merged: nat, ghost done: seq<Effect>)
      requires size > 0 && Accumulates(reach, NodesIn) && nodes == reach([])
      modifies this`nodes
      ensures WasCut(MergeFrom(chunks, 0, size), done, alive, ok, left)
      ensures nodes == reach(done)
      ensures ok ==> merged == |chunks|
    {
      var start: nat := 0;
      left, merged, done := alive, 0, [];
      ghost var whole := MergeFrom(chunks, 0, size);
      while start < |chunks|
        invariant Remains(whole, done, MergeFrom(chunks, start, size))
        invariant alive == |done| + left && nodes == reach(done)
        invariant merged == Min(start, |chunks|)
        decreases |chunks| - start
      {
        var n;
        ok, n, done := MergeBatch(chunks, start, size, left, reach, whole, done);
        if !ok { return; }
        left, merged, start := left - 1, merged + n, start + size;
      }
      EndsHere(whole, done, left);
      ok := true;
    }

    /** Neo4jWriter.merge_chunks. */
    method MergeChunks(chunks: seq<Chunk>, alive: nat) returns (ok: bool, left: nat, merged: nat)
      modifies this`nodes
      ensures Ran(old(Value()), Value(), Merge(chunks, cfg), alive, ok, left)
      ensures ok ==> merged == if cfg.unwindBatch > 0 then |chunks| else 0
    {
      if cfg.unwindBatch <= 0 { return cfg.unwindBatch < 0, alive, 0; }
      ghost var done;
      MergeOnlyMerges(chunks, 0, cfg.unwindBatch);
      ReachAccumulates(nodes, NodesIn);
      ok, left, merged, done := MergeBatches(chunks, cfg.unwindBatch, alive, Reach(nodes, NodesIn));
      RanNodes(old(Value()), Merge(chunks, cfg), done, alive, ok, left);
    }

    /** record_written_chunks: a dictionary of all the keys, stored at once. */
    method RecordWritten(chunks: seq<Chunk>, alive: nat) returns (ok: bool, left: nat)
      modifies this`keys
      ensures Ran(old(Value()), Value(), KeyWrites(chunks, cfg), alive, ok, left)
    {
      if !cfg.dedup { return true, alive; }
      if alive == 0 { return false, 0; }
      RanOne(Value(), StoreKeys(EntriesOf(chunks, cfg)), alive);
      keys := Assign(keys, EntriesOf(chunks, cfg));
      return true, alive - 1;
    }

    /** Embedding and the three stores, for chunks that are not known yet. */
    method WriteStores(toWrite: seq<Chunk>, alive: nat) returns (ok: bool, left: nat, written: nat, merged: nat)
      requires toWrite != []
      modifies this`points, this`nodes, this`keys
      ensures Ran(old(Value()), Value(), StoreProgram(toWrite, cfg), alive, ok, left)
      ensures ok ==> written == if cfg.upsertBatch > 0 then |toWrite| else 0
      ensures ok ==> merged == if cfg.unwindBatch > 0 then |toWrite| else 0
    {
      ghost var s0 := Value();
      written, merged := 0, 0;
      var embedded := EmbedAll(TextsOf(toWrite));
      if embedded.None? {
        RanNothing(s0, alive, true);
        return false, alive, 0, 0;
      }
      ghost var ups, merges, stores := Upsert(toWrite, embedded.value, cfg), Merge(toWrite, cfg),
          KeyWrites(toWrite, cfg);
      var left1, left2;
      ok, left1, written := UpsertChunks(toWrite, embedded.value, alive);
      ghost var s1 := Value();
      if !ok {
        RanStops(s0, s1, ups, merges, alive, left1);
        RanStops(s0, s1, Then(ups, merges), stores, alive, left1);
        return false, left1, written, 0;
      }
      ok, left2, merged := MergeChunks(toWrite, left1);
      ghost var s2 := Value();
      RanThen(s0, s1, s2, ups, merges, alive, left1, ok, left2);
      if !ok {
        RanStops(s0, s2, Then(ups, merges), stores, alive, left2);
        return false, left2, written, merged;
      }
      ok, left := RecordWritten(toWrite, left2);
      RanThen(s0, s2, Value(), Then(ups, merges), stores, alive, left2, ok, left);
    }

    /** Everything up to the catalog. */
    method WriteBody(validated: seq<Chunk>, alive: nat)
      returns (ok: bool, left: nat, skipped: nat, written: nat, merged: nat)
      modifies this`points, this`nodes, this`keys
      ensures Ran(old(Value()), Value(), Body(old(keys), validated, cfg), alive, ok, left)
      ensures ok ==> forall documents ::
                Report(written, |validated|, skipped, merged, documents) ==
                ReportOf(validated, if cfg.stub then validated else Unseen(old(keys), validated, cfg), cfg)
                .(documentsRecorded := documents)
    {
      if cfg.stub {
        RanNothing(Value(), alive, false);
        return true, alive, 0, 0, 0;
      }
      var toWrite;
      toWrite, skipped := PartitionDeduped(validated);
      if toWrite == [] {
        RanNothing(Value(), alive, false);
        return true, alive, skipped, 0, 0;
      }
      ok, left, written, merged := WriteStores(toWrite, alive);
    }

    /** The catalog comes last. */
    method WriteCatalog(validated: seq<Chunk>, jobId: string, now: string, alive: nat)
      returns (ok: bool, left: nat, documents: nat)
      modifies catalog
      ensures Ran(old(Value()), Value(), Program([RecordCatalog(validated, jobId, now)], false), alive, ok, left)
      ensures documents == |GroupOrder(validated)| || !ok
    {
      if alive == 0 { return false, 0, 0; }
      RanOne(Value(), RecordCatalog(validated, jobId, now), alive);
      documents := catalog.RecordFromChunks(validated, jobId, now);
      return true, alive - 1, documents;
    }

    method WriteValidated(validated: seq<Chunk>, jobId: string, now: string, alive: nat)
      returns (r: Outcome, ghost left: nat)
      modifies this`points, this`nodes, this`keys, catalog
      ensures Ran(old(Value()), Value(),
              Then(Body(old(keys), validated, cfg), Program([RecordCatalog(validated, jobId, now)], false)),
                  alive, r.Finished?, left)
      ensures r.Finished? ==>
              r.report == ReportOf(validated, if cfg.stub then validated else Unseen(old(keys), validated, cfg), cfg)
    {
      ghost var s0 := Value();
      ghost var body, last := Body(keys, validated, cfg), Program([RecordCatalog(validated, jobId, now)], false);
      var ok, left1, skipped, written, merged := WriteBody(validated, alive);
      ghost var s1 := Value();
      left := left1;
      if !ok {
        RanStops(s0, s1, body, last, alive, left1);
        return Died, left;
      }
      var left2, documents;
      ok, left2, documents := WriteCatalog(validated, jobId, now, left1);
      RanThen(s0, s1, Value(), body, last, alive, left1, ok, left2);
      left := left2;
      r := if ok then Finished(Report(written, |validated|, skipped, merged, documents)) else Died;
    }

    /** write_chunks, in a process that lives for `alive` more store operations: it leaves
        the stores as the attempt does, and reports only when it got to the end. */
    method WriteChunks(chunks: seq<Chunk>, jobId: string, now: string, alive: nat) returns (r: Outcome)
      modifies this, catalog
      ensures Value() == After(old(Value()), Attempt(chunks, jobId, now, alive), cfg)
      ensures var p := Plan(old(keys), chunks, jobId, now, cfg);
              r.Finished? <==> !p.raises && alive >= |p.effects|
      ensures r.Finished? ==>
                var valid := Filter(chunks, Valid);
                r.report == if valid == [] then Report(0, 0, 0, 0, 0)
                            else ReportOf(valid, if cfg.stub then valid else Unseen(old(keys), valid, cfg), cfg)
    {
      var validated := Filter(chunks, Valid);
      if validated == [] {
        RanNothing(Value(), alive, false);
        return Finished(Report(0, 0, 0, 0, 0));
      }
      ghost var left;
      r, left := WriteValidated(validated, jobId, now, alive);
    }
  }
}
