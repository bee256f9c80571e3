/** Which chunks the dedup store takes for one another (ingest/app/dedup_store.py), and what
    a run of ingest calls never stores. */
module DedupKeys {
  import opened PythonLists
  import opened MapWrites
  import opened KeyNames
  import opened CatalogSpec
  import opened StoreData
  import opened IngestWrites
  import opened IngestRuns

  /** Two chunks have the same dedup key exactly when their tenants, each joined by a colon to
      the content hash given or else to the digest of the text, join alike. */
  lemma SameKeyIff(c: Chunk, d: Chunk, cfg: Config)
    ensures DedupKey(c, cfg) == DedupKey(d, cfg) <==>
            c.tenant + ":" + (if c.contentHash != "" then c.contentHash else cfg.hash(c.text)) ==
            d.tenant + ":" + (if d.contentHash != "" then d.contentHash else cfg.hash(d.text))
  {
    var a := c.tenant + ":" + (if c.contentHash != "" then c.contentHash else cfg.hash(c.text));
    var b := d.tenant + ":" + (if d.contentHash != "" then d.contentHash else cfg.hash(d.text));
    FramedEqual("dedup:", a, b, "");
    assert DedupKey(c, cfg) == "dedup:" + a + "" && DedupKey(d, cfg) == "dedup:" + b + "";
  }

  /** Within a tenant: when the content hashes agree, a digest of the text standing for one that
      is not given; whatever their uuids, documents and versions. */
  lemma DuplicatesIff(c: Chunk, d: Chunk, cfg: Config)
    requires c.tenant == d.tenant
    ensures DedupKey(c, cfg) == DedupKey(d, cfg) <==>
            (if c.contentHash != "" then c.contentHash else cfg.hash(c.text)) ==
            (if d.contentHash != "" then d.contentHash else cfg.hash(d.text))
  {
    SameKeyIff(c, d, cfg);
    FramedEqual(c.tenant + ":", if c.contentHash != "" then c.contentHash else cfg.hash(c.text),
                if d.contentHash != "" then d.contentHash else cfg.hash(d.text), "");
    assert forall x: string :: x + "" == x;
  }

  /** Some chunks of the two tenants share a key. */
  ghost predicate KeysCanMeet(t1: string, t2: string, cfg: Config) {
    exists c: Chunk, d: Chunk :: c.tenant == t1 && d.tenant == t2 && DedupKey(c, cfg) == DedupKey(d, cfg)
  }

  /** Chunks of two tenants can share a key exactly when one tenant's name, with its colon, is a
      prefix of the other's. */
  lemma KeysCanMeetIff(t1: string, t2: string, cfg: Config)
    ensures KeysCanMeet(t1, t2, cfg) <==> Overlapping(t1 + ":", t2 + ":")
  {
    CoincideIffOverlapping(t1 + ":", t2 + ":");
    if c: Chunk, d: Chunk :| c.tenant == t1 && d.tenant == t2 && DedupKey(c, cfg) == DedupKey(d, cfg) {
      SameKeyIff(c, d, cfg);
      assert (t1 + ":") + (if c.contentHash != "" then c.contentHash else cfg.hash(c.text)) ==
             (t2 + ":") + (if d.contentHash != "" then d.contentHash else cfg.hash(d.text));
    }
    if Overlapping(t1 + ":", t2 + ":") {
      var c, d := ChunksThatMeet(t1, t2, cfg);
    }
  }

  lemma ChunksThatMeet(t1: string, t2: string, cfg: Config) returns (c: Chunk, d: Chunk)
    requires Overlapping(t1 + ":", t2 + ":")
    ensures c.tenant == t1 && d.tenant == t2 && c.text == "x" && d.text == "y" && c.uuid == "1" && d.uuid == "2"
    ensures DedupKey(c, cfg) == DedupKey(d, cfg)
  {
    var whole := (if t1 + ":" <= t2 + ":" then t2 + ":" else t1 + ":") + "h";
    c := Chunk("1", t1, "c", "d", "v1", "", "x", whole[|t1| + 1..], "");
    d := Chunk("2", t2, "c", "d", "v1", "", "y", whole[|t2| + 1..], "");
    SameKeyIff(c, d, cfg);
    assert t1 + ":" + c.contentHash == whole && t2 + ":" + d.contentHash == whole;
  }

  lemma TenantsApart(t1: string, t2: string, cfg: Config)
    requires ':' !in t1 && ':' !in t2 && t1 != t2
    ensures !KeysCanMeet(t1, t2, cfg)
  {
    KeysCanMeetIff(t1, t2, cfg);
    CoincideIffOverlapping(t1 + ":", t2 + ":");
    if Overlapping(t1 + ":", t2 + ":") {
      var p, q :| (t1 + ":") + p == (t2 + ":") + q;
      FirstFieldUnique(':', t1, p, t2, q);
    }
  }

  // ----- runs -----

  /** A cut or uncut call stores keys of its own chunks and touches no other. */
  lemma AttemptKeepsOtherKeys(s: Stores, a: Attempt, cfg: Config, key: string)
    requires forall c :: c in a.chunks ==> DedupKey(c, cfg) != key
    ensures var s' := After(s, a, cfg);
            (key in s'.keys <==> key in s.keys) && (key in s.keys ==> s'.keys[key] == s.keys[key])
  {
    var ps, ns := AttemptChanged(s, a, cfg);
    var unseen := Unseen(s.keys, Filter(a.chunks, Valid), cfg);
    UnseenMeans(s.keys, Filter(a.chunks, Valid), cfg);
    FilterMembers(a.chunks, Valid);
    var entries := EntriesOf(unseen, cfg);
    AssignMeans(s.keys, entries, key);
    forall i | 0 <= i < |entries| ensures entries[i].0 != key { assert unseen[i] in unseen; }
  }

  lemma {:induction false} RunKeepsOtherKeys(s: Stores, attempts: seq<Attempt>, cfg: Config, key: string)
    requires forall i, c :: 0 <= i < |attempts| && c in attempts[i].chunks ==> DedupKey(c, cfg) != key
    ensures var s' := Run(s, attempts, cfg);
            (key in s'.keys <==> key in s.keys) && (key in s.keys ==> s'.keys[key] == s.keys[key])
  {
    if attempts != [] {
      var front, last := attempts[..|attempts| - 1], attempts[|attempts| - 1];
      RunKeepsOtherKeys(s, front, cfg, key);
      AttemptKeepsOtherKeys(Run(s, front, cfg), last, cfg, key);
    }
  }

  /** Whatever one tenant ingests, cut short or not, another tenant's chunks are known or unseen
      as they were, when the two tenants' names, with their colons, are not prefixes of one
      another: names without colons never are (TenantsApart). */
  lemma TenantsIsolated(s: Stores, attempts: seq<Attempt>, t1: string, batch: seq<Chunk>, t2: string, cfg: Config)
    requires !Overlapping(t1 + ":", t2 + ":")
    requires forall i, c :: 0 <= i < |attempts| && c in attempts[i].chunks ==> c.tenant == t1
    requires forall c :: c in batch ==> c.tenant == t2
    ensures Unseen(Run(s, attempts, cfg).keys, batch, cfg) == Unseen(s.keys, batch, cfg)
  {
    KeysCanMeetIff(t1, t2, cfg);
    var keys := Run(s, attempts, cfg).keys;
    forall c | c in batch ensures Known(keys, c, cfg) == Known(s.keys, c, cfg) {
      RunKeepsOtherKeys(s, attempts, cfg, DedupKey(c, cfg));
    }
    if cfg.dedup {
      FilterSame(batch, c => !Known(keys, c, cfg), c => !Known(s.keys, c, cfg));
    }
  }

  /** Otherwise some chunk of the one, once ingested, hides some chunk of the other, whatever
      the texts. */
  lemma ColonHidesChunk(t1: string, t2: string, cfg: Config, f: string -> Vector) returns (c: Chunk, d: Chunk)
    requires Overlapping(t1 + ":", t2 + ":") && cfg.dedup && Pointwise(cfg, f) && !NeverStoresKeys(cfg)
    ensures c.tenant == t1 && d.tenant == t2 && c.text == "x" && d.text == "y"
    ensures Unseen(map[], [d], cfg) == [d]
    ensures Unseen(Finish(EMPTY, [c], "", "", cfg).keys, [d], cfg) == []
  {
    c, d := ChunksThatMeet(t1, t2, cfg);
    KeyStored(c, cfg, f);
    OneUnseen(d, cfg);
    NoneKept([d], x => !Known(Finish(EMPTY, [c], "", "", cfg).keys, x, cfg));
  }

  lemma KeyStored(c: Chunk, cfg: Config, f: string -> Vector)
    requires Pointwise(cfg, f) && Valid(c) && !NeverStoresKeys(cfg)
    ensures Known(Finish(EMPTY, [c], "", "", cfg).keys, c, cfg)
  {
    GoesThrough(c, cfg, f);
    var dense := FinishStores(EMPTY, [c], "", "", cfg);
    AssignMeans(map[], EntriesOf([c], cfg), DedupKey(c, cfg));
    assert EntriesOf([c], cfg)[0] == (DedupKey(c, cfg), c.uuid);
  }

  /** Nothing one tenant ingests changes which chunks of the other are unseen. */
  ghost predicate Isolated(t1: string, t2: string, cfg: Config) {
    forall attempts: seq<Attempt>, batch: seq<Chunk> ::
      (forall i, c :: 0 <= i < |attempts| && c in attempts[i].chunks ==> c.tenant == t1) &&
      (forall c :: c in batch ==> c.tenant == t2) ==>
        Unseen(Run(EMPTY, attempts, cfg).keys, batch, cfg) == Unseen(map[], batch, cfg)
  }

  /** That is so exactly when no key is ever stored, or neither tenant's name, with its colon,
      is a prefix of the other's. */
  lemma IsolatedIff(t1: string, t2: string, cfg: Config, f: string -> Vector)
    requires Pointwise(cfg, f)
    ensures Isolated(t1, t2, cfg) <==> NeverStoresKeys(cfg) || !Overlapping(t1 + ":", t2 + ":")
  {
    if NeverStoresKeys(cfg) {
      forall attempts: seq<Attempt> ensures Run(EMPTY, attempts, cfg).keys == map[] { NoKeyIsStored(attempts, cfg); }
    } else if Overlapping(t1 + ":", t2 + ":") {
      var c, d := ColonHidesChunk(t1, t2, cfg, f);
      var a := OneRun([c], cfg);
      assert [d] != [];
      assert Unseen(Run(EMPTY, [a], cfg).keys, [d], cfg) != Unseen(map[], [d], cfg);
    } else {
      forall attempts: seq<Attempt>, batch: seq<Chunk> |
        (forall i, c :: 0 <= i < |attempts| && c in attempts[i].chunks ==> c.tenant == t1) &&
        (forall c :: c in batch ==> c.tenant == t2)
        ensures Unseen(Run(EMPTY, attempts, cfg).keys, batch, cfg) == Unseen(map[], batch, cfg)
      {
        TenantsIsolated(EMPTY, attempts, t1, batch, t2, cfg);
      }
    }
  }

  lemma {:induction false} NoKeyIsStored(attempts: seq<Attempt>, cfg: Config)
    requires NeverStoresKeys(cfg)
    ensures Run(EMPTY, attempts, cfg).keys == map[]
  {
    if attempts != [] {
      NoKeyIsStored(attempts[..|attempts| - 1], cfg);
      var ps, ns := AttemptChanged(Run(EMPTY, attempts[..|attempts| - 1], cfg), attempts[|attempts| - 1], cfg);
    }
  }

  // ----- what is never stored, and what always is -----

  /** Nothing is stored for a chunk without a uuid or without text. */
  ghost predicate OnlyValid(s: Stores) {
    && (forall id :: id in s.points ==> id.uuid != "" && s.points[id].payload.uuid == id.uuid
                                        && s.points[id].payload.text != "")
    && (forall id :: id in s.nodes ==> id.uuid != "" && s.nodes[id].text != "")
    && (forall key :: key in s.keys ==> s.keys[key] != "")
  }

  lemma {:induction false} RunKeepsOnlyValid(s: Stores, attempts: seq<Attempt>, cfg: Config)
    requires OnlyValid(s)
    ensures OnlyValid(Run(s, attempts, cfg))
  {
    if attempts != [] {
      var front, last := attempts[..|attempts| - 1], attempts[|attempts| - 1];
      RunKeepsOnlyValid(s, front, cfg);
      AttemptKeepsOnlyValid(Run(s, front, cfg), last, cfg);
    }
  }

  lemma AttemptKeepsOnlyValid(s: Stores, a: Attempt, cfg: Config)
    requires OnlyValid(s)
    ensures OnlyValid(After(s, a, cfg))
  {
    var ps, ns := AttemptChanged(s, a, cfg);
    var unseen := Unseen(s.keys, Filter(a.chunks, Valid), cfg);
    UnseenMeans(s.keys, Filter(a.chunks, Valid), cfg);
    FilterMembers(a.chunks, Valid);
    forall c | c in unseen ensures c.uuid != "" && c.text != "" { assert Valid(c); }
    ChangedKeepsOnlyValid(s, After(s, a, cfg), ps, ns, unseen, cfg);
  }

  lemma ChangedKeepsOnlyValid(s: Stores, s': Stores, ps: seq<(PointId, Point)>, ns: seq<(NodeId, Node)>,
                              unseen: seq<Chunk>, cfg: Config)
    requires OnlyValid(s) && Changed(s, s', ps, ns, unseen, cfg)
    requires forall c :: c in unseen ==> c.uuid != "" && c.text != ""
    ensures OnlyValid(s')
  {
    forall id | id in s'.points
      ensures id.uuid != "" && s'.points[id].payload.uuid == id.uuid && s'.points[id].payload.text != ""
    {
      AssignMeans(s.points, ps, id);
    }
    forall id | id in s'.nodes ensures id.uuid != "" && s'.nodes[id].text != "" {
      AssignMeans(s.nodes, ns, id);
      var i := LastAt(ns, id);
      if i >= 0 { assert NodeFrom(ns[i], unseen); }
    }
    forall key | key in s'.keys ensures s'.keys[key] != "" {
      AssignMeans(s.keys, EntriesOf(unseen, cfg), key);
      var i := LastAt(EntriesOf(unseen, cfg), key);
      if s'.keys != s.keys && i >= 0 { assert unseen[i] in unseen; }
    }
  }

  /** A call that is not cut short stores every chunk that has a uuid and text and is not known:
      its point, carrying the chunk and the vector of its text, where the first such chunk's
      tenant is served; its node; and its key. */
  lemma FinishedHolds(s: Stores, chunks: seq<Chunk>, jobId: string, now: string, cfg: Config, f: string -> Vector,
                      c: Chunk)
    returns (first: Chunk)
    requires Pointwise(cfg, f) && cfg.embedBatch >= 1 && cfg.upsertBatch >= 1 && cfg.unwindBatch >= 1 && !cfg.stub
    requires c in chunks && c.uuid != "" && c.text != "" && (cfg.dedup ==> !Known(s.keys, c, cfg))
    requires forall d :: d in chunks && d.uuid == c.uuid ==> d == c
    ensures first in chunks
    ensures var after := Finish(s, chunks, jobId, now, cfg);
            var point, node := PointId(cfg.physical(first.tenant), c.uuid), NodeId(c.uuid, c.tenant);
            && point in after.points && after.points[point] == Point(c, f(c.text))
            && node in after.nodes && after.nodes[node] == Node(c.document, c.version, c.text)
            && (cfg.dedup ==> Known(after.keys, c, cfg))
  {
    FinishIsReference(s, chunks, jobId, now, cfg, f);
    var valid := Filter(chunks, Valid);
    var unseen := Unseen(s.keys, valid, cfg);
    FilterMembers(chunks, Valid);
    UnseenMeans(s.keys, valid, cfg);
    assert Valid(c) && c in unseen;
    first := unseen[0];
    assert first in unseen;
    forall d | d in unseen ensures d in chunks && Valid(d) {}
    UnseenStored(s, unseen, cfg, f, c);
  }

  lemma UnseenStored(s: Stores, unseen: seq<Chunk>, cfg: Config, f: string -> Vector, c: Chunk)
    requires c in unseen && forall d :: d in unseen && d.uuid == c.uuid ==> d == c
    requires forall d :: d in unseen ==> Valid(d)
    ensures var physical := cfg.physical(unseen[0].tenant);
            var points := Assign(s.points, PointPairs(physical, unseen, Each(TextsOf(unseen), f), 0));
            PointId(physical, c.uuid) in points && points[PointId(physical, c.uuid)] == Point(c, f(c.text))
    ensures var nodes := Assign(s.nodes, NodePairs(unseen, 0));
            NodeId(c.uuid, c.tenant) in nodes && nodes[NodeId(c.uuid, c.tenant)] == Node(c.document, c.version, c.text)
    ensures Known(Assign(s.keys, EntriesOf(unseen, cfg)), c, cfg)
  {
    PointStored(s.points, cfg.physical(unseen[0].tenant), unseen, f, c);
    NodeStored(s.nodes, unseen, c);
    var i :| 0 <= i < |unseen| && unseen[i] == c;
    assert EntriesOf(unseen, cfg)[i].0 == DedupKey(c, cfg);
    AssignMeans(s.keys, EntriesOf(unseen, cfg), DedupKey(c, cfg));
    assert forall j :: 0 <= j < |unseen| ==> unseen[j] in unseen;
  }

  lemma PointStored(points: Points, physical: string, unseen: seq<Chunk>, f: string -> Vector, c: Chunk)
    requires c in unseen && forall d :: d in unseen && d.uuid == c.uuid ==> d == c
    ensures var after := Assign(points, PointPairs(physical, unseen, Each(TextsOf(unseen), f), 0));
            PointId(physical, c.uuid) in after && after[PointId(physical, c.uuid)] == Point(c, f(c.text))
  {
    var i :| 0 <= i < |unseen| && unseen[i] == c;
    var ps := PointPairs(physical, unseen, Each(TextsOf(unseen), f), 0);
    assert ps[i].0 == PointId(physical, c.uuid);
    AssignMeans(points, ps, PointId(physical, c.uuid));
    var last := LastAt(ps, PointId(physical, c.uuid));
    assert unseen[last] in unseen && unseen[last].uuid == c.uuid;
  }

  lemma NodeStored(nodes: Nodes, unseen: seq<Chunk>, c: Chunk)
    requires c in unseen && forall d :: d in unseen && d.uuid == c.uuid ==> d == c
    ensures var after := Assign(nodes, NodePairs(unseen, 0));
            NodeId(c.uuid, c.tenant) in after && after[NodeId(c.uuid, c.tenant)] == Node(c.document, c.version, c.text)
  {
    var i :| 0 <= i < |unseen| && unseen[i] == c;
    var ns := NodePairs(unseen, 0);
    assert ns[i].0 == NodeId(c.uuid, c.tenant);
    AssignMeans(nodes, ns, NodeId(c.uuid, c.tenant));
    var last := LastAt(ns, NodeId(c.uuid, c.tenant));
    assert unseen[last] in unseen && unseen[last].uuid == c.uuid;
  }
}
