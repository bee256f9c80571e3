/** Writing an ingest batch to the stores (ingest/app/writers.py, ingest/app/dedup_store.py,
    and the batching of ingest/app/clients/qdrant.py and neo4j.py), with a process that may
    die between any two store operations.

    What one call does to the stores is a program: a list of operations, fixed once the
    dedup keys have been read.  A call that dies has carried out a prefix of its program. */
module IngestWrites {
  import opened PythonLists
  import opened Options
  import opened MapWrites
  import opened CatalogSpec
  import opened StoreData

  // ----- the stores -----

  datatype Stores = Stores(
    points: Points, nodes: Nodes, keys: map<string, string>, catalog: Catalog)

  /** Settings, and the code a call relies on: which physical collection serves a tenant,
      what the embedder replies to a list of texts (nothing when it raises), and SHA-256. */
  datatype Config = Config(
    stub: bool, dedup: bool, embedBatch: int, upsertBatch: int, unwindBatch: int,
    physical: string -> string, embed: seq<string> -> Option<seq<Vector>>, hash: string -> string)

  datatype Effect =
    | PutPoints(physical: string, batch: seq<Point>)
    | MergeNodes(rows: seq<Chunk>)
    | StoreKeys(entries: seq<(string, string)>)
    | RecordCatalog(chunks: seq<Chunk>, jobId: string, now: string)

  function PointsIn(e: Effect): seq<(PointId, Point)> {
    if !e.PutPoints? then []
    else seq(|e.batch|, i requires 0 <= i < |e.batch| => (PointId(e.physical, e.batch[i].payload.uuid), e.batch[i]))
  }

  function NodesIn(e: Effect): seq<(NodeId, Node)> {
    if e.MergeNodes? then seq(|e.rows|, i requires 0 <= i < |e.rows| => NodeEntry(e.rows[i])) else []
  }

  function KeysIn(e: Effect): seq<(string, string)> {
    if e.StoreKeys? then e.entries else []
  }

  function Apply(s: Stores, e: Effect): Stores {
    match e
    case PutPoints(_, _) => s.(points := Assign(s.points, PointsIn(e)))
    case MergeNodes(_) => s.(nodes := Assign(s.nodes, NodesIn(e)))
    case StoreKeys(entries) => s.(keys := Assign(s.keys, entries))
    case RecordCatalog(chunks, jobId, now) => s.(catalog := Record(s.catalog, chunks, jobId, now))
  }

  function Exec(s: Stores, es: seq<Effect>): Stores {
    if es == [] then s else Apply(Exec(s, es[..|es| - 1]), es[|es| - 1])
  }

  // ----- the program of a call -----

  predicate Valid(c: Chunk) { c.uuid != "" && c.text != "" }

  function DedupKey(c: Chunk, cfg: Config): string {
    "dedup:" + c.tenant + ":" + if c.contentHash != "" then c.contentHash else cfg.hash(c.text)
  }

  predicate Known(keys: map<string, string>, c: Chunk, cfg: Config) {
    DedupKey(c, cfg) in keys && keys[DedupKey(c, cfg)] != ""
  }

  function Unseen(keys: map<string, string>, chunks: seq<Chunk>, cfg: Config): seq<Chunk> {
    if cfg.dedup then Filter(chunks, c => !Known(keys, c, cfg)) else chunks
  }

  function TextsOf(chunks: seq<Chunk>): (texts: seq<string>)
    ensures |texts| == |chunks|
  {
    seq(|chunks|, i requires 0 <= i < |chunks| => chunks[i].text)
  }

  function EntriesOf(chunks: seq<Chunk>, cfg: Config): (entries: seq<(string, string)>)
    ensures |entries| == |chunks|
  {
    seq(|chunks|, i requires 0 <= i < |chunks| => (DedupKey(chunks[i], cfg), chunks[i].uuid))
  }

  /** A program may end by raising once its operations are done. */
  datatype Program = Program(effects: seq<Effect>, raises: bool)

  function Then(a: Program, b: Program): Program {
    if a.raises then a else Program(a.effects + b.effects, b.raises)
  }

  function EmbeddedFrom(texts: seq<string>, start: nat, size: nat,
                        embed: seq<string> -> Option<seq<Vector>>): Option<seq<Vector>>
    requires size >= 1
    decreases |texts| - start
  {
    if start >= |texts| then Some([])
    else
      match embed(Window(texts, start, size))
      case None => None
      case Some(vectors) =>
        match EmbeddedFrom(texts, start + size, size, embed)
        case None => None
        case Some(rest) => Some(vectors + rest)
  }

  /** The dense vectors, or nothing when a reply or a batch size of zero raises; range() is
      empty for a negative batch size. */
  function Embedded(texts: seq<string>, cfg: Config): Option<seq<Vector>> {
    if cfg.embedBatch == 0 then None
    else if cfg.embedBatch < 0 then Some([])
    else EmbeddedFrom(texts, 0, cfg.embedBatch, cfg.embed)
  }

  function PointsOf(chunks: seq<Chunk>, dense: seq<Vector>): (points: seq<Point>)
    requires |chunks| <= |dense|
    ensures |points| == |chunks|
  {
    seq(|chunks|, i requires 0 <= i < |chunks| => Point(chunks[i], dense[i]))
  }

  /** The batches from `start` on; a batch raises when its vectors do not match its chunks in number. */
  function UpsertFrom(physical: string, chunks: seq<Chunk>, dense: seq<Vector>, start: nat, size: nat): Program
    requires size >= 1
    decreases |chunks| - start
  {
    if start >= |chunks| then Program([], false)
    else if |Window(chunks, start, size)| != |Window(dense, start, size)| then Program([], true)
    else
      Then(Program([PutPoints(physical, PointsOf(Window(chunks, start, size), Window(dense, start, size)))], false),
           UpsertFrom(physical, chunks, dense, start + size, size))
  }

  /** upsert_chunks: the whole batch goes where its first chunk's tenant is served. */
  function Upsert(chunks: seq<Chunk>, dense: seq<Vector>, cfg: Config): Program
    requires chunks != []
  {
    if cfg.upsertBatch <= 0 then Program([], cfg.upsertBatch == 0)
    else UpsertFrom(cfg.physical(chunks[0].tenant), chunks, dense, 0, cfg.upsertBatch)
  }

  function MergeFrom(chunks: seq<Chunk>, start: nat, size: nat): Program
    requires size >= 1
    decreases |chunks| - start
  {
    if start >= |chunks| then Program([], false)
    else Then(Program([MergeNodes(Window(chunks, start, size))], false), MergeFrom(chunks, start + size, size))
  }

  function Merge(chunks: seq<Chunk>, cfg: Config): Program {
    if cfg.unwindBatch <= 0 then Program([], cfg.unwindBatch == 0) else MergeFrom(chunks, 0, cfg.unwindBatch)
  }

  function Writes(chunks: seq<Chunk>, dense: seq<Vector>, cfg: Config): Program
    requires chunks != []
  {
    Then(Upsert(chunks, dense, cfg), Merge(chunks, cfg))
  }

  /** The keys go last, all in one operation. */
  function KeyWrites(chunks: seq<Chunk>, cfg: Config): Program {
    Program(if cfg.dedup then [StoreKeys(EntriesOf(chunks, cfg))] else [], false)
  }

  /** Embedding, then the stores, then the keys. */
  function StoreProgram(chunks: seq<Chunk>, cfg: Config): Program
    requires chunks != []
  {
    match Embedded(TextsOf(chunks), cfg)
    case None => Program([], true)
    case Some(dense) => Then(Writes(chunks, dense, cfg), KeyWrites(chunks, cfg))
  }

  /** Everything but the catalog. */
  function Body(keys: map<string, string>, valid: seq<Chunk>, cfg: Config): Program {
    var unseen := Unseen(keys, valid, cfg);
    if cfg.stub || unseen == [] then Program([], false) else StoreProgram(unseen, cfg)
  }

  /** write_chunks, given the dedup keys it reads. */
  function Plan(keys: map<string, string>, chunks: seq<Chunk>, jobId: string, now: string, cfg: Config): Program {
    var valid := Filter(chunks, Valid);
    if valid == [] then Program([], false)
    else Then(Body(keys, valid, cfg), Program([RecordCatalog(valid, jobId, now)], false))
  }

  /** What is done by a process that lives for `alive` more operations. */
  function Done(p: Program, alive: nat): seq<Effect> {
    p.effects[..Min(alive, |p.effects|)]
  }

  /** A call, and how many store operations its process lives for. */
  datatype Attempt = Attempt(chunks: seq<Chunk>, jobId: string, now: string, alive: nat)

  function After(s: Stores, a: Attempt, cfg: Config): Stores {
    Exec(s, Done(Plan(s.keys, a.chunks, a.jobId, a.now, cfg), a.alive))
  }

  /** A call that is not cut short. */
  function Finish(s: Stores, chunks: seq<Chunk>, jobId: string, now: string, cfg: Config): Stores {
    Exec(s, Plan(s.keys, chunks, jobId, now, cfg).effects)
  }

  // ----- what a list of operations does to each store -----

  function Gather<T>(es: seq<Effect>, pick: Effect -> seq<T>): seq<T> {
    if es == [] then [] else Gather(es[..|es| - 1], pick) + pick(es[|es| - 1])
  }

  lemma {:induction false} GatherAppend<T>(a: seq<Effect>, b: seq<Effect>, pick: Effect -> seq<T>)
    ensures Gather(a + b, pick) == Gather(a, pick) + Gather(b, pick)
  {
    if b == [] {
      assert a + b == a;
    } else {
      GatherAppend(a, b[..|b| - 1], pick);
      assert (a + b)[..|a + b| - 1] == a + b[..|b| - 1];
    }
  }

  predicate Uncatalogued(es: seq<Effect>) {
    forall i :: 0 <= i < |es| ==> !es[i].RecordCatalog?
  }

  lemma {:induction false} ExecMeans(s: Stores, es: seq<Effect>)
    ensures Exec(s, es).points == Assign(s.points, Gather(es, PointsIn))
    ensures Exec(s, es).nodes == Assign(s.nodes, Gather(es, NodesIn))
    ensures Exec(s, es).keys == Assign(s.keys, Gather(es, KeysIn))
    ensures Uncatalogued(es) ==> Exec(s, es).catalog == s.catalog
  {
    if es != [] {
      var front, last := es[..|es| - 1], es[|es| - 1];
      ExecMeans(s, front);
      AssignAppend(s.points, Gather(front, PointsIn), PointsIn(last));
      AssignAppend(s.nodes, Gather(front, NodesIn), NodesIn(last));
      AssignAppend(s.keys, Gather(front, KeysIn), KeysIn(last));
    }
  }

  lemma {:induction false} ExecAppend(s: Stores, a: seq<Effect>, b: seq<Effect>)
    ensures Exec(s, a + b) == Exec(Exec(s, a), b)
  {
    if b == [] {
      assert a + b == a;
    } else {
      ExecAppend(s, a, b[..|b| - 1]);
      assert (a + b)[..|a + b| - 1] == a + b[..|b| - 1];
    }
  }

  /** Operations repeated after a prefix of them have run leave what they would have left. */
  lemma ExecAbsorbs(s: Stores, es: seq<Effect>, k: nat)
    requires k <= |es| && Uncatalogued(es)
    ensures Exec(Exec(s, es[..k]), es) == Exec(s, es)
  {
    var part, rest := es[..k], es[k..];
    assert es == part + rest;
    ExecMeans(s, part);
    ExecMeans(s, es);
    ExecMeans(Exec(s, part), es);
    GatherAppend(part, rest, PointsIn);
    GatherAppend(part, rest, NodesIn);
    GatherAppend(part, rest, KeysIn);
    AssignAbsorbs(s.points, Gather(part, PointsIn), Gather(es, PointsIn));
    AssignAbsorbs(s.nodes, Gather(part, NodesIn), Gather(es, NodesIn));
    AssignAbsorbs(s.keys, Gather(part, KeysIn), Gather(es, KeysIn));
  }

  // ----- the shape of a program -----

  predicate OnlyStores(es: seq<Effect>) {
    forall i :: 0 <= i < |es| ==> es[i].PutPoints? || es[i].MergeNodes?
  }

  lemma {:induction false} UpsertShape(physical: string, chunks: seq<Chunk>, dense: seq<Vector>, start: nat, size: nat)
    requires size >= 1
    ensures OnlyStores(UpsertFrom(physical, chunks, dense, start, size).effects)
    decreases |chunks| - start
  {
    if start < |chunks| { UpsertShape(physical, chunks, dense, start + size, size); }
  }

  lemma {:induction false} MergeShape(chunks: seq<Chunk>, start: nat, size: nat)
    requires size >= 1
    ensures OnlyStores(MergeFrom(chunks, start, size).effects)
    decreases |chunks| - start
  {
    if start < |chunks| { MergeShape(chunks, start + size, size); }
  }

  lemma WritesShape(chunks: seq<Chunk>, dense: seq<Vector>, cfg: Config)
    requires chunks != []
    ensures OnlyStores(Writes(chunks, dense, cfg).effects)
  {
    if cfg.upsertBatch > 0 { UpsertShape(cfg.physical(chunks[0].tenant), chunks, dense, 0, cfg.upsertBatch); }
    if cfg.unwindBatch > 0 { MergeShape(chunks, 0, cfg.unwindBatch); }
  }

  lemma {:induction false} NoKeysYet(s: Stores, es: seq<Effect>)
    requires OnlyStores(es)
    ensures Exec(s, es).keys == s.keys
  {
    if es != [] { NoKeysYet(s, es[..|es| - 1]); }
  }

  /** Store writes, and after them at most the one operation that stores the keys. */
  lemma BodyShape(keys: map<string, string>, valid: seq<Chunk>, cfg: Config) returns (writes: seq<Effect>)
    ensures OnlyStores(writes)
    ensures var body := Body(keys, valid, cfg);
            || body.effects == writes
            || (&& cfg.dedup && !cfg.stub && !body.raises
                && body.effects == writes + [StoreKeys(EntriesOf(Unseen(keys, valid, cfg), cfg))])
  {
    var unseen := Unseen(keys, valid, cfg);
    if cfg.stub || unseen == [] || Embedded(TextsOf(unseen), cfg).None? {
      writes := [];
    } else {
      var dense := Embedded(TextsOf(unseen), cfg).value;
      WritesShape(unseen, dense, cfg);
      writes := Writes(unseen, dense, cfg).effects;
    }
  }

  // ----- a write that was cut short -----

  /** What recording leaves in one version row and one document row. */
  lemma RecordAt(cat: Catalog, chunks: seq<Chunk>, jobId: string, now: string, key: VerKey, doc: DocKey)
    ensures var after, order, members := Record(cat, chunks, jobId, now), GroupOrder(chunks), Members(chunks, key);
            && (if members != [] then
                  && key in after.versions
                  && after.versions[key] == Version(|members|, jobId, Or(members[0].ingestedAt, now))
                else
                  && (key in after.versions <==> key in cat.versions)
                  && (key in cat.versions ==> after.versions[key] == cat.versions[key]))
            && (if LastOf(order, doc) >= 0 then
                  var last := order[LastOf(order, doc)];
                  && Members(chunks, last) != [] && doc in after.documents
                  && after.documents[doc] ==
                      Document(Or(Members(chunks, last)[0].title, doc.document), last.version, now)
                else
                  && (doc in after.documents <==> doc in cat.documents)
                  && (doc in cat.documents ==> after.documents[doc] == cat.documents[doc]))
  {
    GroupOrderMeans(chunks);
    RecordGroupsMeans(cat, GroupOrder(chunks), chunks, jobId, now);
    var order := GroupOrder(chunks);
    if LastOf(order, doc) >= 0 { assert order[LastOf(order, doc)] in order; }
  }

  lemma RecordAbsorbs(cat: Catalog, chunks: seq<Chunk>, jobId1: string, now1: string, jobId2: string, now2: string)
    ensures Record(Record(cat, chunks, jobId1, now1), chunks, jobId2, now2) == Record(cat, chunks, jobId2, now2)
  {
    var first := Record(cat, chunks, jobId1, now1);
    var once, twice := Record(cat, chunks, jobId2, now2), Record(first, chunks, jobId2, now2);
    var anyKey, anyDoc := VerKey(DocKey("", "", ""), ""), DocKey("", "", "");
    forall key
      ensures key in twice.versions <==> key in once.versions
      ensures key in once.versions ==> twice.versions[key] == once.versions[key]
    {
      RecordAt(cat, chunks, jobId1, now1, key, anyDoc);
      RecordAt(cat, chunks, jobId2, now2, key, anyDoc);
      RecordAt(first, chunks, jobId2, now2, key, anyDoc);
    }
    forall doc
      ensures doc in twice.documents <==> doc in once.documents
      ensures doc in once.documents ==> twice.documents[doc] == once.documents[doc]
    {
      RecordAt(cat, chunks, jobId1, now1, anyKey, doc);
      RecordAt(cat, chunks, jobId2, now2, anyKey, doc);
      RecordAt(first, chunks, jobId2, now2, anyKey, doc);
    }
    assert twice.versions == once.versions && twice.documents == once.documents;
  }

  lemma UnseenMeans(keys: map<string, string>, valid: seq<Chunk>, cfg: Config)
    ensures forall c :: c in Unseen(keys, valid, cfg) <==> c in valid && (cfg.dedup ==> !Known(keys, c, cfg))
  {
    if cfg.dedup { FilterMembers(valid, c => !Known(keys, c, cfg)); }
  }

  /** Once the keys of the unseen chunks are stored, none is unseen. */
  lemma StoredIsSeen(keys: map<string, string>, valid: seq<Chunk>, cfg: Config)
    requires cfg.dedup && forall c :: c in valid ==> Valid(c)
    ensures Unseen(Assign(keys, EntriesOf(Unseen(keys, valid, cfg), cfg)), valid, cfg) == []
  {
    var unseen := Unseen(keys, valid, cfg);
    var entries := EntriesOf(unseen, cfg);
    var after := Assign(keys, entries);
    UnseenMeans(keys, valid, cfg);
    forall c | c in valid ensures Known(after, c, cfg) {
      var i := LastAt(entries, DedupKey(c, cfg));
      AssignMeans(keys, entries, DedupKey(c, cfg));
      if i >= 0 {
        assert unseen[i] in unseen;
      } else {
        SeenOrEntered(keys, valid, cfg, c);
      }
    }
    NoneKept(valid, c => !Known(after, c, cfg));
  }

  lemma SeenOrEntered(keys: map<string, string>, valid: seq<Chunk>, cfg: Config, c: Chunk)
    requires cfg.dedup && c in valid
    ensures Known(keys, c, cfg) || LastAt(EntriesOf(Unseen(keys, valid, cfg), cfg), DedupKey(c, cfg)) >= 0
  {
    var unseen := Unseen(keys, valid, cfg);
    UnseenMeans(keys, valid, cfg);
    if c in unseen {
      var j :| 0 <= j < |unseen| && unseen[j] == c;
      assert EntriesOf(unseen, cfg)[j].0 == DedupKey(c, cfg);
    }
  }

  lemma {:induction false} NoneKept<T>(xs: seq<T>, keep: T -> bool)
    requires forall x :: x in xs ==> !keep(x)
    ensures Filter(xs, keep) == []
  {
    if xs != [] { NoneKept(xs[..|xs| - 1], keep); }
  }

  lemma BodyUncatalogued(keys: map<string, string>, valid: seq<Chunk>, cfg: Config)
    ensures Uncatalogued(Body(keys, valid, cfg).effects)
  {
    var writes := BodyShape(keys, valid, cfg);
  }

  lemma BodyAgain(s: Stores, valid: seq<Chunk>, cfg: Config, k: nat)
    requires k <= |Body(s.keys, valid, cfg).effects| && forall c :: c in valid ==> Valid(c)
    ensures var body := Body(s.keys, valid, cfg);
            var cut := Exec(s, body.effects[..k]);
            var again := Body(cut.keys, valid, cfg);
            && Exec(cut, again.effects) == Exec(s, body.effects)
            && again.raises == body.raises
  {
    var es := Body(s.keys, valid, cfg).effects;
    var writes := BodyShape(s.keys, valid, cfg);
    BodyUncatalogued(s.keys, valid, cfg);
    if k <= |writes| {
      CutBeforeKeys(s, es, writes, k);
    } else {
      BodyIsDone(s, valid, cfg, writes);
      assert es[..k] == es;
    }
  }

  lemma CutBeforeKeys(s: Stores, es: seq<Effect>, writes: seq<Effect>, k: nat)
    requires writes <= es && OnlyStores(writes) && Uncatalogued(es) && k <= |writes|
    ensures Exec(s, es[..k]).keys == s.keys
    ensures Exec(Exec(s, es[..k]), es) == Exec(s, es)
  {
    assert es[..k] == writes[..k];
    NoKeysYet(s, writes[..k]);
    ExecAbsorbs(s, es, k);
  }

  lemma BodyIsDone(s: Stores, valid: seq<Chunk>, cfg: Config, writes: seq<Effect>)
    requires forall c :: c in valid ==> Valid(c)
    requires cfg.dedup && OnlyStores(writes)
    requires Body(s.keys, valid, cfg).effects == writes + [StoreKeys(EntriesOf(Unseen(s.keys, valid, cfg), cfg))]
    ensures Body(Exec(s, Body(s.keys, valid, cfg).effects).keys, valid, cfg) == Program([], false)
  {
    var unseen := Unseen(s.keys, valid, cfg);
    KeysLast(s, writes, unseen, cfg);
    assert writes + KeyWrites(unseen, cfg).effects == writes + [StoreKeys(EntriesOf(unseen, cfg))];
    StoredIsSeen(s.keys, valid, cfg);
  }

  lemma {:induction false} CatalogAside(s: Stores, es: seq<Effect>, cat: Catalog)
    requires Uncatalogued(es)
    ensures Exec(s.(catalog := cat), es) == Exec(s, es).(catalog := cat)
  {
    if es != [] { CatalogAside(s, es[..|es| - 1], cat); }
  }

  /** Finishing a call in two steps: everything but the catalog, then the catalog. */
  lemma FinishMeans(s: Stores, chunks: seq<Chunk>, jobId: string, now: string, cfg: Config)
    ensures var valid := Filter(chunks, Valid);
            valid != [] ==>
              var body := Body(s.keys, valid, cfg);
              Finish(s, chunks, jobId, now, cfg) ==
              if body.raises then Exec(s, body.effects)
              else Apply(Exec(s, body.effects), RecordCatalog(valid, jobId, now))
  {
    var valid := Filter(chunks, Valid);
    if valid != [] && !Body(s.keys, valid, cfg).raises {
      var es := Body(s.keys, valid, cfg).effects;
      assert (es + [RecordCatalog(valid, jobId, now)])[..|es|] == es;
    }
  }

  /** Whatever point a write died at, writing the same chunks again ends exactly where a
      first, uninterrupted write at that time would have: in both stores, in the dedup
      keys and in the catalog. */
  lemma RetryConverges(s: Stores, a: Attempt, jobId: string, now: string, cfg: Config)
    ensures Finish(After(s, a, cfg), a.chunks, jobId, now, cfg) == Finish(s, a.chunks, jobId, now, cfg)
    ensures Plan(After(s, a, cfg).keys, a.chunks, jobId, now, cfg).raises ==
            Plan(s.keys, a.chunks, jobId, now, cfg).raises
  {
    var valid := Filter(a.chunks, Valid);
    if valid != [] {
      var k := CutMeans(s, a, cfg);
      FinishMeans(s, a.chunks, jobId, now, cfg);
      FinishMeans(After(s, a, cfg), a.chunks, jobId, now, cfg);
      AllValid(a.chunks);
      if After(s, a, cfg) == Exec(s, Body(s.keys, valid, cfg).effects[..k]) {
        BodyAgain(s, valid, cfg, k);
      } else {
        RetryAfterCatalog(s, valid, a.jobId, a.now, jobId, now, cfg);
      }
    }
  }

  /** A call is cut before its catalog operation, or has done everything. */
  lemma CutMeans(s: Stores, a: Attempt, cfg: Config) returns (k: nat)
    requires Filter(a.chunks, Valid) != []
    ensures var valid := Filter(a.chunks, Valid);
            var body := Body(s.keys, valid, cfg);
            && k <= |body.effects|
            && (|| After(s, a, cfg) == Exec(s, body.effects[..k])
                || (!body.raises
                    && After(s, a, cfg) == Apply(Exec(s, body.effects), RecordCatalog(valid, a.jobId, a.now))))
  {
    var body := Body(s.keys, Filter(a.chunks, Valid), cfg);
    var plan := Plan(s.keys, a.chunks, a.jobId, a.now, cfg);
    k := Min(a.alive, |body.effects|);
    if a.alive <= |body.effects| || body.raises {
      assert Done(plan, a.alive) == body.effects[..k];
    } else {
      assert Done(plan, a.alive) == plan.effects;
      FinishMeans(s, a.chunks, a.jobId, a.now, cfg);
    }
  }

  lemma AllValid(chunks: seq<Chunk>)
    ensures forall c :: c in Filter(chunks, Valid) ==> Valid(c)
  {
    FilterMembers(chunks, Valid);
  }

  lemma RetryAfterCatalog(s: Stores, valid: seq<Chunk>, jobId1: string, now1: string, jobId2: string, now2: string,
                          cfg: Config)
    requires !Body(s.keys, valid, cfg).raises && forall c :: c in valid ==> Valid(c)
    ensures var body := Body(s.keys, valid, cfg);
            var full := Apply(Exec(s, body.effects), RecordCatalog(valid, jobId1, now1));
            var again := Body(full.keys, valid, cfg);
            && !again.raises
            && Apply(Exec(full, again.effects), RecordCatalog(valid, jobId2, now2))
            == Apply(Exec(s, body.effects), RecordCatalog(valid, jobId2, now2))
  {
    var es := Body(s.keys, valid, cfg).effects;
    assert es[..|es|] == es;
    BodyAgain(s, valid, cfg, |es|);
    var done := Exec(s, es);
    var full := Apply(done, RecordCatalog(valid, jobId1, now1));
    BodyUncatalogued(s.keys, valid, cfg);
    BodyUncatalogued(full.keys, valid, cfg);
    CatalogAside(done, Body(full.keys, valid, cfg).effects, full.catalog);
    ExecMeans(s, es);
    RecordAbsorbs(s.catalog, valid, jobId1, now1, jobId2, now2);
  }

  function Interrupted(s: Stores, attempts: seq<Attempt>, cfg: Config): Stores {
    if attempts == [] then s else After(Interrupted(s, attempts[..|attempts| - 1], cfg), attempts[|attempts| - 1], cfg)
  }

  /** However many attempts at the same chunks died, and wherever each did. */
  lemma {:induction false} RetriesConverge(s: Stores, attempts: seq<Attempt>, chunks: seq<Chunk>, jobId: string,
                                           now: string, cfg: Config)
    requires forall i :: 0 <= i < |attempts| ==> attempts[i].chunks == chunks
    ensures Finish(Interrupted(s, attempts, cfg), chunks, jobId, now, cfg) == Finish(s, chunks, jobId, now, cfg)
  {
    if attempts != [] {
      var front := attempts[..|attempts| - 1];
      RetriesConverge(s, front, chunks, jobId, now, cfg);
      RetryConverges(Interrupted(s, front, cfg), attempts[|attempts| - 1], jobId, now, cfg);
    }
  }

  // ----- what a whole write leaves -----

  /** The points of the chunks from `start` on, in order. */
  function PointPairs(physical: string, chunks: seq<Chunk>, dense: seq<Vector>, start: nat): seq<(PointId, Point)>
    requires start < |chunks| ==> |chunks| <= |dense|
  {
    seq(if start < |chunks| then |chunks| - start else 0,
        i requires 0 <= i < |chunks| - start =>
          (PointId(physical, chunks[start + i].uuid), Point(chunks[start + i], dense[start + i])))
  }

  function NodePairs(chunks: seq<Chunk>, start: nat): seq<(NodeId, Node)> {
    seq(if start < |chunks| then |chunks| - start else 0,
        i requires 0 <= i < |chunks| - start => NodeEntry(chunks[start + i]))
  }

  lemma GatherOne<T>(e: Effect, pick: Effect -> seq<T>)
    ensures Gather([e], pick) == pick(e)
  {
    assert [e][..0] == [];
    assert Gather([e], pick) == [] + pick(e);
  }

  lemma PointPairsStep(physical: string, chunks: seq<Chunk>, dense: seq<Vector>, start: nat, size: nat)
    requires size >= 1 && start < |chunks| && |Window(chunks, start, size)| == |Window(dense, start, size)|
    requires start + size < |chunks| ==> |chunks| <= |dense|
    ensures |chunks| <= |dense|
    ensures var put := PutPoints(physical, PointsOf(Window(chunks, start, size), Window(dense, start, size)));
            PointPairs(physical, chunks, dense, start) ==
                PointsIn(put) + PointPairs(physical, chunks, dense, start + size)
  {
    var cs, ds := Window(chunks, start, size), Window(dense, start, size);
    var points := PointsOf(cs, ds);
    forall i | 0 <= i < |cs| ensures points[i] == Point(chunks[start + i], dense[start + i]) {
      assert cs[i] == chunks[start + i] && ds[i] == dense[start + i];
    }
  }

  lemma {:induction false} UpsertCovers(physical: string, chunks: seq<Chunk>, dense: seq<Vector>, start: nat, size: nat)
    requires size >= 1 && !UpsertFrom(physical, chunks, dense, start, size).raises
    ensures start < |chunks| ==> |chunks| <= |dense|
    ensures Gather(UpsertFrom(physical, chunks, dense, start, size).effects, PointsIn) ==
            PointPairs(physical, chunks, dense, start)
    decreases |chunks| - start
  {
    if start < |chunks| {
      var rest := UpsertFrom(physical, chunks, dense, start + size, size);
      UpsertCovers(physical, chunks, dense, start + size, size);
      var put := PutPoints(physical, PointsOf(Window(chunks, start, size), Window(dense, start, size)));
      PointPairsStep(physical, chunks, dense, start, size);
      GatherFirst(put, rest.effects, PointsIn);
    }
  }

  lemma GatherFirst<T>(first: Effect, rest: seq<Effect>, pick: Effect -> seq<T>)
    ensures Gather([first] + rest, pick) == pick(first) + Gather(rest, pick)
  {
    GatherAppend([first], rest, pick);
    GatherOne(first, pick);
  }

  lemma NodePairsStep(chunks: seq<Chunk>, start: nat, size: nat)
    requires size >= 1 && start < |chunks|
    ensures NodePairs(chunks, start) ==
            NodesIn(MergeNodes(Window(chunks, start, size))) + NodePairs(chunks, start + size)
  {
    var rows := Window(chunks, start, size);
    forall i | 0 <= i < |rows| ensures rows[i] == chunks[start + i] {}
  }

  lemma {:induction false} MergeCovers(chunks: seq<Chunk>, start: nat, size: nat)
    requires size >= 1
    ensures !MergeFrom(chunks, start, size).raises
    ensures Gather(MergeFrom(chunks, start, size).effects, NodesIn) == NodePairs(chunks, start)
    decreases |chunks| - start
  {
    if start < |chunks| {
      MergeCovers(chunks, start + size, size);
      NodePairsStep(chunks, start, size);
      GatherFirst(MergeNodes(Window(chunks, start, size)), MergeFrom(chunks, start + size, size).effects, NodesIn);
    }
  }

  lemma {:induction false} GatherNothing<T>(es: seq<Effect>, pick: Effect -> seq<T>)
    requires forall i :: 0 <= i < |es| ==> pick(es[i]) == []
    ensures Gather(es, pick) == []
  {
    if es != [] { GatherNothing(es[..|es| - 1], pick); }
  }

  lemma {:induction false} UpsertOnlyPuts(physical: string, chunks: seq<Chunk>, dense: seq<Vector>, start: nat,
                                          size: nat)
    requires size >= 1
    ensures forall i :: 0 <= i < |UpsertFrom(physical, chunks, dense, start, size).effects| ==>
              UpsertFrom(physical, chunks, dense, start, size).effects[i].PutPoints?
    decreases |chunks| - start
  {
    if start < |chunks| { UpsertOnlyPuts(physical, chunks, dense, start + size, size); }
  }

  lemma {:induction false} MergeOnlyMerges(chunks: seq<Chunk>, start: nat, size: nat)
    requires size >= 1
    ensures forall i :: 0 <= i < |MergeFrom(chunks, start, size).effects| ==>
            MergeFrom(chunks, start, size).effects[i].MergeNodes?
    decreases |chunks| - start
  {
    if start < |chunks| { MergeOnlyMerges(chunks, start + size, size); }
  }

  /** Store writes that go through put every chunk's point and node, in order, whatever the
      batch sizes; a batch size that is negative writes nothing. */
  lemma WritesCover(chunks: seq<Chunk>, dense: seq<Vector>, cfg: Config)
    requires chunks != [] && !Writes(chunks, dense, cfg).raises
    ensures cfg.upsertBatch > 0 ==> |chunks| <= |dense|
    ensures Gather(Writes(chunks, dense, cfg).effects, PointsIn) ==
            if cfg.upsertBatch > 0 then PointPairs(cfg.physical(chunks[0].tenant), chunks, dense, 0) else []
    ensures Gather(Writes(chunks, dense, cfg).effects, NodesIn) ==
            if cfg.unwindBatch > 0 then NodePairs(chunks, 0) else []
  {
    var ups, merges := Upsert(chunks, dense, cfg).effects, Merge(chunks, cfg).effects;
    UpsertGathers(chunks, dense, cfg);
    MergeGathers(chunks, cfg);
    GatherAppend(ups, merges, PointsIn);
    GatherAppend(ups, merges, NodesIn);
  }

  lemma UpsertGathers(chunks: seq<Chunk>, dense: seq<Vector>, cfg: Config)
    requires chunks != [] && !Upsert(chunks, dense, cfg).raises
    ensures cfg.upsertBatch > 0 ==> |chunks| <= |dense|
    ensures Gather(Upsert(chunks, dense, cfg).effects, PointsIn) ==
            if cfg.upsertBatch > 0 then PointPairs(cfg.physical(chunks[0].tenant), chunks, dense, 0) else []
    ensures Gather(Upsert(chunks, dense, cfg).effects, NodesIn) == []
  {
    if cfg.upsertBatch > 0 {
      var physical := cfg.physical(chunks[0].tenant);
      UpsertCovers(physical, chunks, dense, 0, cfg.upsertBatch);
      UpsertOnlyPuts(physical, chunks, dense, 0, cfg.upsertBatch);
      GatherNothing(UpsertFrom(physical, chunks, dense, 0, cfg.upsertBatch).effects, NodesIn);
    }
  }

  lemma MergeGathers(chunks: seq<Chunk>, cfg: Config)
    requires !Merge(chunks, cfg).raises
    ensures Gather(Merge(chunks, cfg).effects, PointsIn) == []
    ensures Gather(Merge(chunks, cfg).effects, NodesIn) == if cfg.unwindBatch > 0 then NodePairs(chunks, 0) else []
  {
    if cfg.unwindBatch > 0 {
      MergeCovers(chunks, 0, cfg.unwindBatch);
      MergeOnlyMerges(chunks, 0, cfg.unwindBatch);
      GatherNothing(MergeFrom(chunks, 0, cfg.unwindBatch).effects, PointsIn);
    }
  }

  function Each(texts: seq<string>, f: string -> Vector): (r: seq<Vector>)
    ensures |r| == |texts|
  {
    seq(|texts|, i requires 0 <= i < |texts| => f(texts[i]))
  }

  /** The embedder answers each text with its own vector, in order. */
  ghost predicate Pointwise(cfg: Config, f: string -> Vector) {
    forall texts :: cfg.embed(texts) == Some(Each(texts, f))
  }

  function Onward(texts: seq<string>, start: nat): seq<string> {
    texts[Min(start, |texts|)..]
  }

  lemma EachWindow(texts: seq<string>, start: nat, size: nat, f: string -> Vector)
    ensures Each(Window(texts, start, size), f) + Each(Onward(texts, start + size), f) == Each(Onward(texts, start), f)
  {
    assert Window(texts, start, size) + Onward(texts, start + size) == Onward(texts, start);
  }

  lemma {:induction false} EmbeddedPointwise(texts: seq<string>, start: nat, cfg: Config, f: string -> Vector)
    requires Pointwise(cfg, f) && cfg.embedBatch >= 1
    ensures EmbeddedFrom(texts, start, cfg.embedBatch, cfg.embed) == Some(Each(Onward(texts, start), f))
    decreases |texts| - start
  {
    if start < |texts| {
      EmbeddedPointwise(texts, start + cfg.embedBatch, cfg, f);
      EachWindow(texts, start, cfg.embedBatch, f);
    }
  }

  lemma {:induction false} UpsertGoesThrough(physical: string, chunks: seq<Chunk>, dense: seq<Vector>, start: nat,
                                             size: nat)
    requires size >= 1 && |dense| == |chunks|
    ensures !UpsertFrom(physical, chunks, dense, start, size).raises
    decreases |chunks| - start
  {
    if start < |chunks| { UpsertGoesThrough(physical, chunks, dense, start + size, size); }
  }

  /** A write as one would say it: skip what is known, give every other chunk its point with
      its own vector and its node, then remember the keys, then record the whole batch. */
  function Reference(s: Stores, chunks: seq<Chunk>, jobId: string, now: string, cfg: Config,
                     f: string -> Vector): Stores {
    var valid := Filter(chunks, Valid);
    var unseen := Unseen(s.keys, valid, cfg);
    if valid == [] then s
    else if cfg.stub || unseen == [] then s.(catalog := Record(s.catalog, valid, jobId, now))
    else
      Stores(Assign(s.points, PointPairs(cfg.physical(unseen[0].tenant), unseen, Each(TextsOf(unseen), f), 0)),
             Assign(s.nodes, NodePairs(unseen, 0)),
             if cfg.dedup then Assign(s.keys, EntriesOf(unseen, cfg)) else s.keys,
             Record(s.catalog, valid, jobId, now))
  }

  lemma BodyIsReference(s: Stores, valid: seq<Chunk>, cfg: Config, f: string -> Vector)
    requires Pointwise(cfg, f) && cfg.embedBatch >= 1 && cfg.upsertBatch >= 1 && cfg.unwindBatch >= 1
    requires !cfg.stub && Unseen(s.keys, valid, cfg) != []
    ensures var unseen := Unseen(s.keys, valid, cfg);
            var body := Body(s.keys, valid, cfg);
            && !body.raises
            && Exec(s, body.effects) == Stores(
                 Assign(s.points, PointPairs(cfg.physical(unseen[0].tenant), unseen, Each(TextsOf(unseen), f), 0)),
                 Assign(s.nodes, NodePairs(unseen, 0)),
                 if cfg.dedup then Assign(s.keys, EntriesOf(unseen, cfg)) else s.keys,
                 s.catalog)
  {
    var unseen := Unseen(s.keys, valid, cfg);
    var texts := TextsOf(unseen);
    EmbeddedPointwise(texts, 0, cfg, f);
    assert texts[0..] == texts;
    WritesGoThrough(s, unseen, Each(texts, f), cfg);
  }

  lemma WritesGoThrough(s: Stores, chunks: seq<Chunk>, dense: seq<Vector>, cfg: Config)
    requires cfg.upsertBatch >= 1 && cfg.unwindBatch >= 1 && chunks != [] && |dense| == |chunks|
    ensures var all := Then(Writes(chunks, dense, cfg), KeyWrites(chunks, cfg));
            && !all.raises
            && Exec(s, all.effects) == Stores(
                 Assign(s.points, PointPairs(cfg.physical(chunks[0].tenant), chunks, dense, 0)),
                 Assign(s.nodes, NodePairs(chunks, 0)),
                 if cfg.dedup then Assign(s.keys, EntriesOf(chunks, cfg)) else s.keys,
                 s.catalog)
  {
    UpsertGoesThrough(cfg.physical(chunks[0].tenant), chunks, dense, 0, cfg.upsertBatch);
    MergeCovers(chunks, 0, cfg.unwindBatch);
    WritesLeave(s, chunks, dense, cfg);
  }

  lemma KeysLast(s: Stores, writes: seq<Effect>, chunks: seq<Chunk>, cfg: Config)
    requires OnlyStores(writes)
    ensures Exec(s, writes + KeyWrites(chunks, cfg).effects) == Stores(
              Assign(s.points, Gather(writes, PointsIn)), Assign(s.nodes, Gather(writes, NodesIn)),
              if cfg.dedup then Assign(s.keys, EntriesOf(chunks, cfg)) else s.keys, s.catalog)
  {
    ExecMeans(s, writes);
    NoKeysYet(s, writes);
    ExecAppend(s, writes, KeyWrites(chunks, cfg).effects);
    if cfg.dedup { assert KeyWrites(chunks, cfg).effects[..0] == []; }
  }

  /** A write that is not cut short does what the reference says: with an embedder that
      answers text by text, no batch size shows in the result. */
  lemma FinishIsReference(s: Stores, chunks: seq<Chunk>, jobId: string, now: string, cfg: Config, f: string -> Vector)
    requires Pointwise(cfg, f) && cfg.embedBatch >= 1 && cfg.upsertBatch >= 1 && cfg.unwindBatch >= 1
    ensures !Plan(s.keys, chunks, jobId, now, cfg).raises
    ensures Finish(s, chunks, jobId, now, cfg) == Reference(s, chunks, jobId, now, cfg, f)
  {
    var valid := Filter(chunks, Valid);
    FinishMeans(s, chunks, jobId, now, cfg);
    if valid != [] && !cfg.stub && Unseen(s.keys, valid, cfg) != [] { BodyIsReference(s, valid, cfg, f); }
  }

  /** What any call that goes through leaves, given what was embedded: the points where the
      first chunk's tenant is served, the nodes, the keys and the catalog rows. */
  lemma FinishStores(s: Stores, chunks: seq<Chunk>, jobId: string, now: string, cfg: Config)
    returns (dense: seq<Vector>)
    requires !cfg.stub && !Plan(s.keys, chunks, jobId, now, cfg).raises
    requires Unseen(s.keys, Filter(chunks, Valid), cfg) != []
    ensures var valid := Filter(chunks, Valid);
            var unseen, after := Unseen(s.keys, valid, cfg), Finish(s, chunks, jobId, now, cfg);
            && (cfg.upsertBatch > 0 ==> |unseen| <= |dense|)
            && after.points == (if cfg.upsertBatch <= 0 then s.points
                                else Assign(s.points, PointPairs(cfg.physical(unseen[0].tenant), unseen, dense, 0)))
            && after.nodes == (if cfg.unwindBatch <= 0 then s.nodes else Assign(s.nodes, NodePairs(unseen, 0)))
            && after.keys == (if cfg.dedup then Assign(s.keys, EntriesOf(unseen, cfg)) else s.keys)
            && after.catalog == Record(s.catalog, valid, jobId, now)
  {
    var valid := Filter(chunks, Valid);
    var unseen := Unseen(s.keys, valid, cfg);
    UnseenMeans(s.keys, valid, cfg);
    assert unseen[0] in unseen;
    dense := Embedded(TextsOf(unseen), cfg).value;
    WritesLeave(s, unseen, dense, cfg);
    FinishMeans(s, chunks, jobId, now, cfg);
  }

  lemma WritesLeave(s: Stores, chunks: seq<Chunk>, dense: seq<Vector>, cfg: Config)
    requires chunks != [] && !Writes(chunks, dense, cfg).raises
    ensures cfg.upsertBatch > 0 ==> |chunks| <= |dense|
    ensures Exec(s, Writes(chunks, dense, cfg).effects + KeyWrites(chunks, cfg).effects) == Stores(
              if cfg.upsertBatch <= 0 then s.points
              else Assign(s.points, PointPairs(cfg.physical(chunks[0].tenant), chunks, dense, 0)),
              if cfg.unwindBatch <= 0 then s.nodes else Assign(s.nodes, NodePairs(chunks, 0)),
              if cfg.dedup then Assign(s.keys, EntriesOf(chunks, cfg)) else s.keys,
              s.catalog)
  {
    WritesShape(chunks, dense, cfg);
    WritesCover(chunks, dense, cfg);
    KeysLast(s, Writes(chunks, dense, cfg).effects, chunks, cfg);
  }

  // ----- what a cut write may have left -----

  predicate FromChunks(e: Effect, chunks: seq<Chunk>) {
    match e
    case PutPoints(_, batch) => forall i :: 0 <= i < |batch| ==> batch[i].payload in chunks
    case MergeNodes(rows) => forall i :: 0 <= i < |rows| ==> rows[i] in chunks
    case _ => false
  }

  predicate AllFromChunks(es: seq<Effect>, chunks: seq<Chunk>) {
    forall i :: 0 <= i < |es| ==> FromChunks(es[i], chunks)
  }

  lemma {:induction false} UpsertFromChunks(physical: string, chunks: seq<Chunk>, dense: seq<Vector>, start: nat,
                                            size: nat)
    requires size >= 1
    ensures AllFromChunks(UpsertFrom(physical, chunks, dense, start, size).effects, chunks)
    decreases |chunks| - start
  {
    if start < |chunks| && |Window(chunks, start, size)| == |Window(dense, start, size)| {
      UpsertFromChunks(physical, chunks, dense, start + size, size);
      assert forall c :: c in Window(chunks, start, size) ==> c in chunks;
      var points := PointsOf(Window(chunks, start, size), Window(dense, start, size));
      forall i | 0 <= i < |points| ensures points[i].payload in chunks {
        assert points[i].payload == Window(chunks, start, size)[i];
      }
    }
  }

  lemma {:induction false} MergeFromChunks(chunks: seq<Chunk>, start: nat, size: nat)
    requires size >= 1
    ensures AllFromChunks(MergeFrom(chunks, start, size).effects, chunks)
    decreases |chunks| - start
  {
    if start < |chunks| {
      MergeFromChunks(chunks, start + size, size);
      assert forall c :: c in Window(chunks, start, size) ==> c in chunks;
    }
  }

  /** Everything the entries carry belongs to the chunks. */
  ghost predicate EntriesFrom(ps: seq<(PointId, Point)>, ns: seq<(NodeId, Node)>, chunks: seq<Chunk>) {
    && (forall i :: 0 <= i < |ps| ==> ps[i].1.payload in chunks && ps[i].0.uuid == ps[i].1.payload.uuid)
    && (forall i :: 0 <= i < |ns| ==> NodeFrom(ns[i], chunks))
  }

  ghost predicate NodeFrom(n: (NodeId, Node), chunks: seq<Chunk>) {
    exists c :: c in chunks && n == NodeEntry(c)
  }

  lemma {:induction false} GatheredFrom(es: seq<Effect>, chunks: seq<Chunk>)
    requires AllFromChunks(es, chunks)
    ensures EntriesFrom(Gather(es, PointsIn), Gather(es, NodesIn), chunks)
  {
    if es != [] {
      var front, last := es[..|es| - 1], es[|es| - 1];
      GatheredFrom(front, chunks);
      assert FromChunks(last, chunks);
      EntriesInEffect(last, chunks);
      EntriesJoin(Gather(front, PointsIn), Gather(front, NodesIn), PointsIn(last), NodesIn(last), chunks);
    }
  }

  lemma EntriesInEffect(e: Effect, chunks: seq<Chunk>)
    requires FromChunks(e, chunks)
    ensures EntriesFrom(PointsIn(e), NodesIn(e), chunks)
  {
    forall i | 0 <= i < |NodesIn(e)| ensures NodeFrom(NodesIn(e)[i], chunks) {
      assert e.rows[i] in chunks;
    }
  }

  lemma EntriesJoin(ps: seq<(PointId, Point)>, ns: seq<(NodeId, Node)>, ps2: seq<(PointId, Point)>,
                    ns2: seq<(NodeId, Node)>, chunks: seq<Chunk>)
    requires EntriesFrom(ps, ns, chunks) && EntriesFrom(ps2, ns2, chunks)
    ensures EntriesFrom(ps + ps2, ns + ns2, chunks)
  {
  }

  lemma WritesFromChunks(chunks: seq<Chunk>, dense: seq<Vector>, cfg: Config)
    requires chunks != []
    ensures AllFromChunks(Writes(chunks, dense, cfg).effects, chunks)
  {
    if cfg.upsertBatch > 0 { UpsertFromChunks(cfg.physical(chunks[0].tenant), chunks, dense, 0, cfg.upsertBatch); }
    if cfg.unwindBatch > 0 { MergeFromChunks(chunks, 0, cfg.unwindBatch); }
  }

  /** Settings under which no call gets as far as its keys: they are off, or some step before
      them raises or is skipped. */
  predicate NeverStoresKeys(cfg: Config) {
    || !cfg.dedup || cfg.stub || cfg.embedBatch == 0 || cfg.upsertBatch == 0 || cfg.unwindBatch == 0
    || (cfg.embedBatch < 0 && cfg.upsertBatch > 0)
  }

  /** Settings under which a call that gets to its keys has written both stores. */
  predicate StoresBeforeKeys(cfg: Config) {
    NeverStoresKeys(cfg) || (cfg.upsertBatch > 0 && cfg.unwindBatch > 0)
  }

  lemma KeysMeanWrites(chunks: seq<Chunk>, cfg: Config)
    requires cfg.dedup && !cfg.stub && chunks != [] && Embedded(TextsOf(chunks), cfg).Some?
    requires !Writes(chunks, Embedded(TextsOf(chunks), cfg).value, cfg).raises
    ensures !NeverStoresKeys(cfg)
  {
  }

  /** What an attempt changed: entries of unseen chunks in the stores and no key; or the keys of
      all the unseen chunks, with all of them in both stores if batch sizes are positive. */
  ghost predicate Changed(s: Stores, s': Stores, ps: seq<(PointId, Point)>, ns: seq<(NodeId, Node)>,
                          unseen: seq<Chunk>, cfg: Config) {
    && s'.points == Assign(s.points, ps) && s'.nodes == Assign(s.nodes, ns) && EntriesFrom(ps, ns, unseen)
    && (s'.keys == s.keys || Stored(s, s', ps, ns, unseen, cfg))
  }

  ghost predicate Stored(s: Stores, s': Stores, ps: seq<(PointId, Point)>, ns: seq<(NodeId, Node)>, unseen: seq<Chunk>,
                         cfg: Config) {
    && unseen != [] && !NeverStoresKeys(cfg) && s'.keys == Assign(s.keys, EntriesOf(unseen, cfg))
    && (cfg.unwindBatch > 0 ==> ns == NodePairs(unseen, 0))
    && (cfg.upsertBatch > 0 ==>
          exists dense :: |dense| >= |unseen| && ps == PointPairs(cfg.physical(unseen[0].tenant), unseen, dense, 0))
  }

  lemma PrefixChanged(s: Stores, writes: seq<Effect>, k: nat, unseen: seq<Chunk>, cfg: Config)
    returns (ps: seq<(PointId, Point)>, ns: seq<(NodeId, Node)>)
    requires k <= |writes| && OnlyStores(writes) && AllFromChunks(writes, unseen)
    ensures Changed(s, Exec(s, writes[..k]), ps, ns, unseen, cfg)
  {
    ps, ns := Gather(writes[..k], PointsIn), Gather(writes[..k], NodesIn);
    ExecMeans(s, writes[..k]);
    NoKeysYet(s, writes[..k]);
    GatheredFrom(writes[..k], unseen);
  }

  lemma WholeChanged(s: Stores, chunks: seq<Chunk>, dense: seq<Vector>, cfg: Config)
    returns (ps: seq<(PointId, Point)>, ns: seq<(NodeId, Node)>)
    requires chunks != [] && !NeverStoresKeys(cfg)
    requires !Writes(chunks, dense, cfg).raises
    ensures var after := Exec(s, Writes(chunks, dense, cfg).effects + KeyWrites(chunks, cfg).effects);
            Changed(s, after, ps, ns, chunks, cfg)
  {
    var writes := Writes(chunks, dense, cfg).effects;
    ps, ns := Gather(writes, PointsIn), Gather(writes, NodesIn);
    WritesShape(chunks, dense, cfg);
    WritesFromChunks(chunks, dense, cfg);
    WritesCover(chunks, dense, cfg);
    GatheredFrom(writes, chunks);
    KeysLast(s, writes, chunks, cfg);
  }

  lemma BodyChanged(s: Stores, valid: seq<Chunk>, cfg: Config, k: nat)
    returns (ps: seq<(PointId, Point)>, ns: seq<(NodeId, Node)>)
    requires k <= |Body(s.keys, valid, cfg).effects|
    ensures Changed(s, Exec(s, Body(s.keys, valid, cfg).effects[..k]), ps, ns, Unseen(s.keys, valid, cfg), cfg)
  {
    var unseen := Unseen(s.keys, valid, cfg);
    var es := Body(s.keys, valid, cfg).effects;
    if cfg.stub || unseen == [] || Embedded(TextsOf(unseen), cfg).None? {
      ps, ns := PrefixChanged(s, [], 0, unseen, cfg);
      assert es[..k] == [][..0];
    } else {
      var dense := Embedded(TextsOf(unseen), cfg).value;
      var writes := Writes(unseen, dense, cfg).effects;
      WritesShape(unseen, dense, cfg);
      WritesFromChunks(unseen, dense, cfg);
      if k <= |writes| {
        ps, ns := PrefixChanged(s, writes, k, unseen, cfg);
        assert es[..k] == writes[..k];
      } else {
        KeysMeanWrites(unseen, cfg);
        ps, ns := WholeChanged(s, unseen, dense, cfg);
        assert es[..k] == writes + KeyWrites(unseen, cfg).effects;
      }
    }
  }

  lemma ExecOneMore(s: Stores, done: seq<Effect>, e: Effect)
    ensures Exec(s, done + [e]) == Apply(Exec(s, done), e)
  {
    assert (done + [e])[..|done|] == done;
  }

  /** Apart from the catalog, an attempt has done a prefix of the body. */
  lemma AfterIsBodyPrefix(s: Stores, a: Attempt, cfg: Config) returns (k: nat)
    requires Filter(a.chunks, Valid) != []
    ensures var es := Body(s.keys, Filter(a.chunks, Valid), cfg).effects;
            k <= |es| && After(s, a, cfg) == Exec(s, es[..k]).(catalog := After(s, a, cfg).catalog)
  {
    k := CutMeans(s, a, cfg);
    var es := Body(s.keys, Filter(a.chunks, Valid), cfg).effects;
    if After(s, a, cfg) != Exec(s, es[..k]) {
      k := |es|;
      assert es[..k] == es;
    }
  }

  lemma AttemptChanged(s: Stores, a: Attempt, cfg: Config) returns (ps: seq<(PointId, Point)>, ns: seq<(NodeId, Node)>)
    ensures Changed(s, After(s, a, cfg), ps, ns, Unseen(s.keys, Filter(a.chunks, Valid), cfg), cfg)
  {
    var valid := Filter(a.chunks, Valid);
    if valid == [] {
      ps, ns := PrefixChanged(s, [], 0, Unseen(s.keys, valid, cfg), cfg);
    } else {
      var k := AfterIsBodyPrefix(s, a, cfg);
      ps, ns := BodyChanged(s, valid, cfg, k);
    }
  }
}
