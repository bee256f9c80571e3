/** Runs of ingest calls, any of which may be cut short: what the dedup keys vouch for
    (ingest/app/dedup_store.py), and where content ends up. */
module IngestRuns {
  import opened PythonLists
  import opened MapWrites
  import opened CatalogSpec
  import opened StoreData
  import opened IngestWrites

  // ----- runs of calls, any of which may be cut short -----

  function Run(s: Stores, attempts: seq<Attempt>, cfg: Config): Stores {
    if attempts == [] then s else After(Run(s, attempts[..|attempts| - 1], cfg), attempts[|attempts| - 1], cfg)
  }

  /** The key's chunk has a point and a node under the uuid the key names. */
  ghost predicate Backed(s: Stores, key: string, cfg: Config)
    requires key in s.keys
  {
    exists c: Chunk, physical ::
      DedupKey(c, cfg) == key && c.uuid == s.keys[key] && PointId(physical, c.uuid) in s.points
          && NodeId(c.uuid, c.tenant) in s.nodes
  }

  ghost predicate AllBacked(s: Stores, cfg: Config) {
    forall key :: key in s.keys ==> Backed(s, key, cfg)
  }

  lemma AssignGrows<K(!new), V>(m: map<K, V>, entries: seq<(K, V)>)
    ensures forall key :: key in m ==> key in Assign(m, entries)
    ensures forall i :: 0 <= i < |entries| ==> entries[i].0 in Assign(m, entries)
  {
    forall key | key in m ensures key in Assign(m, entries) { AssignMeans(m, entries, key); }
    forall i | 0 <= i < |entries| ensures entries[i].0 in Assign(m, entries) { AssignMeans(m, entries, entries[i].0); }
  }

  lemma AttemptKeepsBacked(s: Stores, a: Attempt, cfg: Config)
    requires AllBacked(s, cfg) && StoresBeforeKeys(cfg)
    ensures AllBacked(After(s, a, cfg), cfg)
  {
    var s' := After(s, a, cfg);
    var ps, ns := AttemptChanged(s, a, cfg);
    var unseen := Unseen(s.keys, Filter(a.chunks, Valid), cfg);
    AssignGrows(s.points, ps);
    AssignGrows(s.nodes, ns);
    forall key | key in s'.keys ensures Backed(s', key, cfg) {
      var entries := EntriesOf(unseen, cfg);
      AssignMeans(s.keys, entries, key);
      var i := LastAt(entries, key);
      if s'.keys == s.keys || i < 0 {
        var c: Chunk, physical :| DedupKey(c, cfg) == key && c.uuid == s.keys[key]
                           && PointId(physical, c.uuid) in s.points && NodeId(c.uuid, c.tenant) in s.nodes;
        assert PointId(physical, c.uuid) in s'.points && NodeId(c.uuid, c.tenant) in s'.nodes;
      } else {
        assert ps[i].0 == PointId(cfg.physical(unseen[0].tenant), unseen[i].uuid);
        assert ns[i].0 == NodeId(unseen[i].uuid, unseen[i].tenant);
        assert DedupKey(unseen[i], cfg) == key;
      }
    }
  }

  /** On every run of calls, wherever each was cut short, a dedup key is there only when the
      chunk it stands for has its point and its node. */
  lemma {:induction false} KeysAreBacked(s: Stores, attempts: seq<Attempt>, cfg: Config)
    requires AllBacked(s, cfg) && StoresBeforeKeys(cfg)
    ensures AllBacked(Run(s, attempts, cfg), cfg)
  {
    if attempts != [] {
      KeysAreBacked(s, attempts[..|attempts| - 1], cfg);
      AttemptKeepsBacked(Run(s, attempts[..|attempts| - 1], cfg), attempts[|attempts| - 1], cfg);
    }
  }

  const EMPTY := Stores(map[], map[], map[], Catalog(map[], map[]))

  ghost predicate KeysAlwaysBacked(cfg: Config) {
    forall attempts :: AllBacked(Run(EMPTY, attempts, cfg), cfg)
  }

  /** Over all settings: dedup keys are always backed exactly when no call ever stores a key
      or both stores' batch sizes are positive.  With a negative batch size range() is
      empty, and a key is stored as if its chunk had been written. */
  lemma KeysBackedIff(cfg: Config, f: string -> Vector)
    requires Pointwise(cfg, f)
    ensures KeysAlwaysBacked(cfg) <==> NeverStoresKeys(cfg) || (cfg.upsertBatch > 0 && cfg.unwindBatch > 0)
  {
    if StoresBeforeKeys(cfg) {
      forall attempts ensures AllBacked(Run(EMPTY, attempts, cfg), cfg) { KeysAreBacked(EMPTY, attempts, cfg); }
    } else {
      var c := Chunk("u", "t", "c", "d", "v1", "", "x", "", "");
      KeyWithoutStores(c, cfg, f);
      var a := OneRun([c], cfg);
      assert !Backed(Run(EMPTY, [a], cfg), DedupKey(c, cfg), cfg);
    }
  }

  /** A call with one chunk gets to the end unless the settings never let one. */
  lemma GoesThrough(c: Chunk, cfg: Config, f: string -> Vector)
    requires Pointwise(cfg, f) && Valid(c) && !NeverStoresKeys(cfg)
    ensures Filter([c], Valid) == [c] && Unseen(map[], [c], cfg) == [c]
    ensures !Plan(map[], [c], "", "", cfg).raises
  {
    OneValid(c);
    OneUnseen(c, cfg);
    var texts := TextsOf([c]);
    if cfg.embedBatch > 0 { EmbeddedPointwise(texts, 0, cfg, f); }
    var dense := Embedded(texts, cfg).value;
    if cfg.upsertBatch > 0 { UpsertGoesThrough(cfg.physical(c.tenant), [c], dense, 0, cfg.upsertBatch); }
    if cfg.unwindBatch > 0 { MergeCovers([c], 0, cfg.unwindBatch); }
  }

  lemma OneValid(c: Chunk)
    requires Valid(c)
    ensures Filter([c], Valid) == [c]
  {
    AllKept([c], Valid);
  }

  lemma OneUnseen(c: Chunk, cfg: Config)
    ensures Unseen(map[], [c], cfg) == [c]
  {
    if cfg.dedup { AllKept([c], x => !Known(map[], x, cfg)); }
  }

  lemma KeyWithoutStores(c: Chunk, cfg: Config, f: string -> Vector)
    requires Pointwise(cfg, f) && Valid(c) && !StoresBeforeKeys(cfg)
    ensures var s := Finish(EMPTY, [c], "", "", cfg);
            && DedupKey(c, cfg) in s.keys
            && (s.points == map[] || s.nodes == map[])
            && (cfg.upsertBatch < 0 ==> s.points == map[])
  {
    GoesThrough(c, cfg, f);
    var dense := FinishStores(EMPTY, [c], "", "", cfg);
    AssignMeans(map[], EntriesOf([c], cfg), DedupKey(c, cfg));
    assert EntriesOf([c], cfg)[0].0 == DedupKey(c, cfg);
  }

  /** With a negative upsert batch size nothing reaches Qdrant, yet the key is stored. */
  lemma NegativeBatchStoresKeyAlone(c: Chunk, cfg: Config, f: string -> Vector)
    requires Pointwise(cfg, f) && Valid(c) && !NeverStoresKeys(cfg) && cfg.upsertBatch < 0
    ensures var s := Finish(EMPTY, [c], "", "", cfg);
            s.points == map[] && DedupKey(c, cfg) in s.keys && !AllBacked(s, cfg)
  {
    KeyWithoutStores(c, cfg, f);
    assert !Backed(Finish(EMPTY, [c], "", "", cfg), DedupKey(c, cfg), cfg);
  }

  // ----- and holds its content -----

  predicate PointHolds(s: Stores, c: Chunk, physical: string) {
    PointId(physical, c.uuid) in s.points && s.points[PointId(physical, c.uuid)].payload == c
  }

  predicate NodeHolds(s: Stores, c: Chunk) {
    NodeEntry(c).0 in s.nodes && s.nodes[NodeEntry(c).0] == NodeEntry(c).1
  }

  /** A known chunk of this key is what both stores hold under the uuid the key names. */
  ghost predicate Held(s: Stores, key: string, known: set<Chunk>, cfg: Config)
    requires key in s.keys
  {
    exists c, physical ::
      c in known && DedupKey(c, cfg) == key && c.uuid == s.keys[key] && PointHolds(s, c, physical) && NodeHolds(s, c)
  }

  ghost predicate AllHeld(s: Stores, known: set<Chunk>, cfg: Config) {
    forall key :: key in s.keys ==> Held(s, key, known, cfg)
  }

  predicate UuidsTellKeys(known: set<Chunk>, cfg: Config) {
    forall c, d :: c in known && d in known && c.uuid == d.uuid ==> DedupKey(c, cfg) == DedupKey(d, cfg)
  }

  predicate Within(chunks: seq<Chunk>, known: set<Chunk>) {
    forall c :: c in chunks && Valid(c) ==> c in known
  }

  /** A held chunk that is not among those written keeps its point and node. */
  lemma HeldStays(s: Stores, s': Stores, ps: seq<(PointId, Point)>, ns: seq<(NodeId, Node)>, unseen: seq<Chunk>,
                  c: Chunk, physical: string)
    requires s'.points == Assign(s.points, ps) && s'.nodes == Assign(s.nodes, ns) && EntriesFrom(ps, ns, unseen)
    requires PointHolds(s, c, physical) && NodeHolds(s, c)
    requires forall w :: w in unseen ==> w.uuid != c.uuid
    ensures PointHolds(s', c, physical) && NodeHolds(s', c)
  {
    AssignMeans(s.points, ps, PointId(physical, c.uuid));
    AssignMeans(s.nodes, ns, NodeEntry(c).0);
    forall j | 0 <= j < |ns| ensures ns[j].0 != NodeEntry(c).0 {
      var w :| w in unseen && ns[j] == NodeEntry(w);
    }
  }

  /** The last chunk written under a new key is what both stores then hold under its uuid. */
  lemma NewIsHeld(s: Stores, s': Stores, ps: seq<(PointId, Point)>, ns: seq<(NodeId, Node)>, unseen: seq<Chunk>,
                  i: nat, cfg: Config)
    requires s'.points == Assign(s.points, ps) && s'.nodes == Assign(s.nodes, ns)
    requires Stored(s, s', ps, ns, unseen, cfg) && cfg.upsertBatch > 0 && cfg.unwindBatch > 0 && i < |unseen|
    requires forall j :: i < j < |unseen| ==> unseen[j].uuid != unseen[i].uuid
    ensures PointHolds(s', unseen[i], cfg.physical(unseen[0].tenant)) && NodeHolds(s', unseen[i])
  {
    var c := unseen[i];
    var physical := cfg.physical(unseen[0].tenant);
    var dense :| |dense| >= |unseen| && ps == PointPairs(physical, unseen, dense, 0);
    AssignMeans(s.points, ps, PointId(physical, c.uuid));
    AssignMeans(s.nodes, ns, NodeEntry(c).0);
    assert ps[i].0 == PointId(physical, c.uuid) && ns[i].0 == NodeEntry(c).0;
    assert forall j :: i < j < |ps| ==> ps[j].0 != PointId(physical, c.uuid);
    assert forall j :: i < j < |ns| ==> ns[j].0 != NodeEntry(c).0;
  }

  lemma OldKeyHeld(s: Stores, s': Stores, ps: seq<(PointId, Point)>, ns: seq<(NodeId, Node)>, unseen: seq<Chunk>,
                   key: string, known: set<Chunk>, cfg: Config)
    requires Changed(s, s', ps, ns, unseen, cfg) && UuidsTellKeys(known, cfg)
    requires forall c :: c in unseen ==> c in known && !Known(s.keys, c, cfg)
    requires forall c :: c in known ==> Valid(c)
    requires key in s.keys && Held(s, key, known, cfg) && key in s'.keys && s'.keys[key] == s.keys[key]
    ensures Held(s', key, known, cfg)
  {
    var c, physical :| c in known && DedupKey(c, cfg) == key && c.uuid == s.keys[key] && PointHolds(s, c, physical)
        && NodeHolds(s, c);
    forall w | w in unseen ensures w.uuid != c.uuid {
      assert w in known && !Known(s.keys, w, cfg);
    }
    HeldStays(s, s', ps, ns, unseen, c, physical);
  }

  lemma NewKeyHeld(s: Stores, s': Stores, ps: seq<(PointId, Point)>, ns: seq<(NodeId, Node)>, unseen: seq<Chunk>,
                   key: string, known: set<Chunk>, cfg: Config)
    requires Changed(s, s', ps, ns, unseen, cfg) && Stored(s, s', ps, ns, unseen, cfg) && UuidsTellKeys(known, cfg)
    requires cfg.upsertBatch > 0 && cfg.unwindBatch > 0
    requires forall c :: c in unseen ==> c in known
    requires LastAt(EntriesOf(unseen, cfg), key) >= 0
    ensures key in s'.keys && Held(s', key, known, cfg)
  {
    var entries := EntriesOf(unseen, cfg);
    var i := LastAt(entries, key);
    AssignMeans(s.keys, entries, key);
    assert unseen[i] in unseen;
    forall j | i < j < |unseen| ensures unseen[j].uuid != unseen[i].uuid {
      assert unseen[j] in unseen;
      assert entries[j].0 != key;
    }
    NewIsHeld(s, s', ps, ns, unseen, i, cfg);
  }

  lemma UnseenAreKnown(s: Stores, chunks: seq<Chunk>, known: set<Chunk>, cfg: Config)
    requires Within(chunks, known) && cfg.dedup
    ensures forall c :: c in Unseen(s.keys, Filter(chunks, Valid), cfg) ==> c in known && !Known(s.keys, c, cfg)
  {
    FilterMembers(chunks, Valid);
    UnseenMeans(s.keys, Filter(chunks, Valid), cfg);
  }

  lemma ChangedKeepsHeld(s: Stores, s': Stores, ps: seq<(PointId, Point)>, ns: seq<(NodeId, Node)>, unseen: seq<Chunk>,
                         known: set<Chunk>, cfg: Config)
    requires AllHeld(s, known, cfg) && Changed(s, s', ps, ns, unseen, cfg) && StoresBeforeKeys(cfg)
    requires UuidsTellKeys(known, cfg) && forall c :: c in known ==> Valid(c)
    requires forall c :: c in unseen ==> c in known && !Known(s.keys, c, cfg)
    ensures AllHeld(s', known, cfg)
  {
    forall key | key in s'.keys ensures Held(s', key, known, cfg) {
      AssignMeans(s.keys, EntriesOf(unseen, cfg), key);
      if s'.keys == s.keys || LastAt(EntriesOf(unseen, cfg), key) < 0 {
        OldKeyHeld(s, s', ps, ns, unseen, key, known, cfg);
      } else {
        NewKeyHeld(s, s', ps, ns, unseen, key, known, cfg);
      }
    }
  }

  lemma AttemptKeepsHeld(s: Stores, a: Attempt, known: set<Chunk>, cfg: Config)
    requires AllHeld(s, known, cfg) && cfg.dedup && StoresBeforeKeys(cfg)
    requires UuidsTellKeys(known, cfg) && Within(a.chunks, known) && forall c :: c in known ==> Valid(c)
    ensures AllHeld(After(s, a, cfg), known, cfg)
  {
    var ps, ns := AttemptChanged(s, a, cfg);
    UnseenAreKnown(s, a.chunks, known, cfg);
    ChangedKeepsHeld(s, After(s, a, cfg), ps, ns, Unseen(s.keys, Filter(a.chunks, Valid), cfg), known, cfg);
  }

  lemma {:induction false} RunKeepsHeld(s: Stores, attempts: seq<Attempt>, known: set<Chunk>, cfg: Config)
    requires AllHeld(s, known, cfg) && cfg.dedup && StoresBeforeKeys(cfg)
    requires UuidsTellKeys(known, cfg) && forall c :: c in known ==> Valid(c)
    requires forall i :: 0 <= i < |attempts| ==> Within(attempts[i].chunks, known)
    ensures AllHeld(Run(s, attempts, cfg), known, cfg)
  {
    if attempts != [] {
      RunKeepsHeld(s, attempts[..|attempts| - 1], known, cfg);
      AttemptKeepsHeld(Run(s, attempts[..|attempts| - 1], cfg), attempts[|attempts| - 1], known, cfg);
    }
  }

  ghost predicate AlwaysHeld(known: set<Chunk>, cfg: Config) {
    forall attempts: seq<Attempt> :: (forall i :: 0 <= i < |attempts| ==> Within(attempts[i].chunks, known)) ==>
      AllHeld(Run(EMPTY, attempts, cfg), known, cfg)
  }

  /** Over a set of chunks, every run of cut and uncut calls leaves each dedup key's content
      in both stores exactly when there is nothing to store, or no key is ever stored, or
      both stores are written and no two of the chunks share a uuid but not a key: a uuid
      used again for other content overwrites what an earlier key vouches for. */
  lemma AlwaysHeldIff(known: set<Chunk>, cfg: Config, f: string -> Vector)
    requires Pointwise(cfg, f) && forall c :: c in known ==> Valid(c)
    ensures AlwaysHeld(known, cfg) <==>
            || known == {} || NeverStoresKeys(cfg)
            || (cfg.upsertBatch > 0 && cfg.unwindBatch > 0 && UuidsTellKeys(known, cfg))
  {
    if known == {} || NeverStoresKeys(cfg) {
      forall attempts: seq<Attempt> | forall i :: 0 <= i < |attempts| ==> Within(attempts[i].chunks, known)
        ensures AllHeld(Run(EMPTY, attempts, cfg), known, cfg)
      {
        NoKeysStored(attempts, known, cfg);
      }
    } else if cfg.upsertBatch <= 0 || cfg.unwindBatch <= 0 {
      var c :| c in known;
      UnwrittenIsNotHeld(known, c, cfg, f);
    } else if UuidsTellKeys(known, cfg) {
      forall attempts: seq<Attempt> | forall i :: 0 <= i < |attempts| ==> Within(attempts[i].chunks, known)
        ensures AllHeld(Run(EMPTY, attempts, cfg), known, cfg)
      {
        RunKeepsHeld(EMPTY, attempts, known, cfg);
      }
    } else {
      var c, d :| c in known && d in known && c.uuid == d.uuid && DedupKey(c, cfg) != DedupKey(d, cfg);
      SharedUuidLosesContent(known, c, d, cfg, f);
    }
  }

  lemma UnwrittenIsNotHeld(known: set<Chunk>, c: Chunk, cfg: Config, f: string -> Vector)
    requires Pointwise(cfg, f) && c in known && Valid(c) && !StoresBeforeKeys(cfg)
    ensures !AlwaysHeld(known, cfg)
  {
    KeyWithoutStores(c, cfg, f);
    EmptyStoreHoldsNothing(Finish(EMPTY, [c], "", "", cfg), DedupKey(c, cfg), known, cfg);
    LosesContent(known, [c], cfg);
  }

  lemma EmptyStoreHoldsNothing(s: Stores, key: string, known: set<Chunk>, cfg: Config)
    requires key in s.keys && (s.points == map[] || s.nodes == map[])
    ensures !AllHeld(s, known, cfg)
  {
    assert !Held(s, key, known, cfg);
  }

  lemma LosesContent(known: set<Chunk>, chunks: seq<Chunk>, cfg: Config)
    requires Within(chunks, known) && !AllHeld(Finish(EMPTY, chunks, "", "", cfg), known, cfg)
    ensures !AlwaysHeld(known, cfg)
  {
    var a := OneRun(chunks, cfg);
    assert forall i :: 0 <= i < |[a]| ==> Within([a][i].chunks, known);
  }

  lemma {:induction false} NoKeysStored(attempts: seq<Attempt>, known: set<Chunk>, cfg: Config)
    requires known == {} || NeverStoresKeys(cfg)
    requires forall i :: 0 <= i < |attempts| ==> Within(attempts[i].chunks, known)
    ensures Run(EMPTY, attempts, cfg).keys == map[]
  {
    if attempts != [] {
      var front, last := attempts[..|attempts| - 1], attempts[|attempts| - 1];
      NoKeysStored(front, known, cfg);
      if NeverStoresKeys(cfg) {
        var ps, ns := AttemptChanged(Run(EMPTY, front, cfg), last, cfg);
      } else {
        NothingValid(Run(EMPTY, front, cfg), last, cfg);
      }
    }
  }

  lemma NothingValid(s: Stores, a: Attempt, cfg: Config)
    requires Within(a.chunks, {})
    ensures After(s, a, cfg) == s
  {
    var valid := Filter(a.chunks, Valid);
    assert valid != [] ==> valid[0] in valid;
    FilterMembers(a.chunks, Valid);
  }

  lemma {:induction false} AllKept<T>(xs: seq<T>, keep: T -> bool)
    requires forall i :: 0 <= i < |xs| ==> keep(xs[i])
    ensures Filter(xs, keep) == xs
  {
    if xs != [] {
      var front, last := xs[..|xs| - 1], xs[|xs| - 1];
      AllKept(front, keep);
      assert xs == front + [last];
    }
  }

  lemma SharedUuidLosesContent(known: set<Chunk>, c: Chunk, d: Chunk, cfg: Config, f: string -> Vector)
    requires cfg.dedup && !cfg.stub && cfg.embedBatch >= 1 && cfg.upsertBatch >= 1 && cfg.unwindBatch >= 1
    requires Pointwise(cfg, f)
    requires c in known && d in known && Valid(c) && Valid(d) && c.uuid == d.uuid
    requires DedupKey(c, cfg) != DedupKey(d, cfg)
    ensures !AlwaysHeld(known, cfg)
  {
    TwoWritten(c, d, cfg, f);
    TwoUnderOneUuid(Finish(EMPTY, [c, d], "", "", cfg), c, d, known, cfg, f);
    LosesContent(known, [c, d], cfg);
  }

  /** A run of one call that is not cut short. */
  lemma OneRun(chunks: seq<Chunk>, cfg: Config) returns (a: Attempt)
    ensures a.chunks == chunks && Run(EMPTY, [a], cfg) == Finish(EMPTY, chunks, "", "", cfg)
  {
    var effects := Plan(map[], chunks, "", "", cfg).effects;
    a := Attempt(chunks, "", "", |effects|);
    assert [a][..0] == [];
    assert effects[..|effects|] == effects;
  }

  lemma TwoWritten(c: Chunk, d: Chunk, cfg: Config, f: string -> Vector)
    requires cfg.dedup && !cfg.stub && cfg.embedBatch >= 1 && cfg.upsertBatch >= 1 && cfg.unwindBatch >= 1
    requires Pointwise(cfg, f)
    requires Valid(c) && Valid(d)
    ensures var s := Finish(EMPTY, [c, d], "", "", cfg);
            && s.points == Assign(map[], PointPairs(cfg.physical(c.tenant), [c, d], Each(TextsOf([c, d]), f), 0))
            && s.keys == Assign(map[], EntriesOf([c, d], cfg))
  {
    var both := [c, d];
    AllKept(both, Valid);
    AllKept(both, x => !Known(map[], x, cfg));
    FinishIsReference(EMPTY, both, "", "", cfg, f);
  }

  lemma TwoUnderOneUuid(s: Stores, c: Chunk, d: Chunk, known: set<Chunk>, cfg: Config, f: string -> Vector)
    requires c.uuid == d.uuid && DedupKey(c, cfg) != DedupKey(d, cfg)
    requires s.points == Assign(map[], PointPairs(cfg.physical(c.tenant), [c, d], Each(TextsOf([c, d]), f), 0))
    requires s.keys == Assign(map[], EntriesOf([c, d], cfg))
    ensures !AllHeld(s, known, cfg)
  {
    var key := DedupKey(c, cfg);
    var entries := EntriesOf([c, d], cfg);
    var ps := PointPairs(cfg.physical(c.tenant), [c, d], Each(TextsOf([c, d]), f), 0);
    AssignMeans(map[], entries, key);
    assert entries[0] == (key, c.uuid) && entries[1].0 == DedupKey(d, cfg);
    assert key in s.keys && s.keys[key] == c.uuid;
    forall physical, x: Chunk | x.uuid == c.uuid && PointHolds(s, x, physical) ensures x == d {
      AssignMeans(map[], ps, PointId(physical, c.uuid));
      assert ps[0].0 == ps[1].0 && ps[1].1.payload == d;
    }
    assert !Held(s, key, known, cfg);
  }

  // ----- content that was pruned -----

  /** Removing a version's points and nodes leaves its dedup keys behind.  Whatever the stores
      have lost since, a batch that was once written in full is afterwards recorded in the
      catalog with all its chunks while not one of them is written again. */
  lemma PrunedContentStaysOut(s: Stores, chunks: seq<Chunk>, jobId: string, now: string, cfg: Config,
                              points: Points, nodes: Nodes, cat: Catalog, jobId2: string, now2: string)
    requires cfg.dedup && !cfg.stub && !Plan(s.keys, chunks, jobId, now, cfg).raises
    ensures var written := Finish(s, chunks, jobId, now, cfg);
            var valid := Filter(chunks, Valid);
            Finish(Stores(points, nodes, written.keys, cat), chunks, jobId2, now2, cfg) ==
            Stores(points, nodes, written.keys, if valid == [] then cat else Record(cat, valid, jobId2, now2))
  {
    FinishedIsSeen(s, chunks, jobId, now, cfg);
    NothingUnseen(Stores(points, nodes, Finish(s, chunks, jobId, now, cfg).keys, cat), chunks, jobId2, now2, cfg);
  }

  /** With nothing unseen a call only records. */
  lemma NothingUnseen(s: Stores, chunks: seq<Chunk>, jobId: string, now: string, cfg: Config)
    requires Unseen(s.keys, Filter(chunks, Valid), cfg) == []
    ensures var valid := Filter(chunks, Valid);
            Finish(s, chunks, jobId, now, cfg) ==
            if valid == [] then s else s.(catalog := Record(s.catalog, valid, jobId, now))
  {
    FinishMeans(s, chunks, jobId, now, cfg);
  }

  lemma FinishedIsSeen(s: Stores, chunks: seq<Chunk>, jobId: string, now: string, cfg: Config)
    requires cfg.dedup && !cfg.stub && !Plan(s.keys, chunks, jobId, now, cfg).raises
    ensures Unseen(Finish(s, chunks, jobId, now, cfg).keys, Filter(chunks, Valid), cfg) == []
  {
    var valid := Filter(chunks, Valid);
    var unseen := Unseen(s.keys, valid, cfg);
    if unseen != [] {
      AllValid(chunks);
      var dense := FinishStores(s, chunks, jobId, now, cfg);
      StoredIsSeen(s.keys, valid, cfg);
    } else if valid != [] {
      NothingUnseen(s, chunks, jobId, now, cfg);
    }
  }

  // ----- tenants served by collections of their own -----

  predicate FoundAtHome(s: Stores, c: Chunk, cfg: Config) {
    PointId(cfg.physical(c.tenant), c.uuid) in s.points
  }

  /** A batch is written where its first unseen chunk's tenant is served.  Afterwards each
      chunk's point can be found where its own tenant is served exactly when it could
      before or that is the same place. */
  lemma BatchFoundAtHomeIff(s: Stores, chunks: seq<Chunk>, jobId: string, now: string, cfg: Config, c: Chunk)
    requires !cfg.stub && cfg.upsertBatch > 0 && !Plan(s.keys, chunks, jobId, now, cfg).raises
    requires c in Unseen(s.keys, Filter(chunks, Valid), cfg)
    ensures var unseen := Unseen(s.keys, Filter(chunks, Valid), cfg);
            FoundAtHome(Finish(s, chunks, jobId, now, cfg), c, cfg) <==>
            FoundAtHome(s, c, cfg) || cfg.physical(c.tenant) == cfg.physical(unseen[0].tenant)
  {
    var unseen := Unseen(s.keys, Filter(chunks, Valid), cfg);
    var dense := FinishStores(s, chunks, jobId, now, cfg);
    WrittenAtHome(s.points, cfg.physical(unseen[0].tenant), unseen, dense, c, cfg.physical(c.tenant));
  }

  lemma WrittenAtHome(points: Points, home: string, unseen: seq<Chunk>, dense: seq<Vector>, c: Chunk, physical: string)
    requires |dense| >= |unseen| && c in unseen
    ensures PointId(physical, c.uuid) in Assign(points, PointPairs(home, unseen, dense, 0)) <==>
            PointId(physical, c.uuid) in points || physical == home
  {
    var ps := PointPairs(home, unseen, dense, 0);
    AssignMeans(points, ps, PointId(physical, c.uuid));
    var i :| 0 <= i < |unseen| && unseen[i] == c;
    assert ps[i].0 == PointId(home, c.uuid);
  }

  /** Two tenants served apart and ingested in one batch: the second tenant's chunk is not found. */
  lemma SecondTenantMissesOut(a: Chunk, b: Chunk, cfg: Config)
    requires !cfg.stub && cfg.upsertBatch > 0 && !Plan(map[], [a, b], "", "", cfg).raises
    requires Valid(a) && Valid(b) && cfg.physical(a.tenant) != cfg.physical(b.tenant)
    ensures !FoundAtHome(Finish(EMPTY, [a, b], "", "", cfg), b, cfg)
  {
    var chunks := [a, b];
    AllKept(chunks, Valid);
    AllKept(chunks, x => !Known(map[], x, cfg));
    BatchFoundAtHomeIff(EMPTY, chunks, "", "", cfg, b);
  }
}
