/** The ingest catalog as values (ingest/app/catalog_store.py): what recording a batch means,
    which versions may be pruned, and how many chunks a tenant has.

    A chunk's missing field reads as the empty string, which the store's tests treat alike. */
module CatalogSpec {
  import opened PythonLists
  import opened Sorting
  import opened MapSums
  import opened SetSizes

  datatype Chunk = Chunk(
    uuid: string, tenant: string, collection: string, document: string, version: string,
    title: string, text: string, contentHash: string, ingestedAt: string)

  datatype DocKey = DocKey(tenant: string, collection: string, document: string)

  datatype VerKey = VerKey(doc: DocKey, version: string)

  datatype Document = Document(title: string, latest: string, updatedAt: string)

  datatype Version = Version(chunkCount: nat, jobId: string, ingestedAt: string)

  type Documents = map<DocKey, Document>

  type Versions = map<VerKey, Version>

  datatype Catalog = Catalog(documents: Documents, versions: Versions)

  // ----- grouping a batch -----

  predicate Placed(c: Chunk) { c.tenant != "" && c.collection != "" && c.document != "" }

  function Or(s: string, default: string): string { if s != "" then s else default }

  function KeyOf(c: Chunk): VerKey { VerKey(DocKey(c.tenant, c.collection, c.document), Or(c.version, "v1")) }

  predicate In(c: Chunk, key: VerKey) { Placed(c) && KeyOf(c) == key }

  /** The keys of a batch in the order of their first chunks. */
  function GroupOrder(chunks: seq<Chunk>): seq<VerKey> {
    if chunks == [] then []
    else
      var before, last := GroupOrder(chunks[..|chunks| - 1]), chunks[|chunks| - 1];
      if Placed(last) && KeyOf(last) !in before then before + [KeyOf(last)] else before
  }

  /** The chunks of one key, in batch order. */
  function Members(chunks: seq<Chunk>, key: VerKey): (members: seq<Chunk>)
    ensures |members| <= |chunks|
  {
    if chunks == [] then []
    else
      var before, last := Members(chunks[..|chunks| - 1], key), chunks[|chunks| - 1];
      if In(last, key) then before + [last] else before
  }

  lemma {:induction false} MembersMean(chunks: seq<Chunk>, key: VerKey, c: Chunk)
    requires c in Members(chunks, key)
    ensures c in chunks && In(c, key)
  {
    var front, last := chunks[..|chunks| - 1], chunks[|chunks| - 1];
    if c in Members(front, key) { MembersMean(front, key, c); }
  }

  predicate Distinct<T(==)>(xs: seq<T>) {
    forall i, j :: 0 <= i < j < |xs| ==> xs[i] != xs[j]
  }

  lemma {:induction false} GroupOrderMeans(chunks: seq<Chunk>)
    ensures Distinct(GroupOrder(chunks))
    ensures forall key :: key in GroupOrder(chunks) <==> exists c :: c in chunks && In(c, key)
    ensures forall key :: key in GroupOrder(chunks) <==> Members(chunks, key) != []
  {
    if chunks != [] {
      var front, last := chunks[..|chunks| - 1], chunks[|chunks| - 1];
      GroupOrderMeans(front);
      assert forall c :: c in chunks <==> c in front || c == last;
      assert Placed(last) ==> In(last, KeyOf(last));
    }
  }

  // ----- recording a batch -----

  function RecordGroup(cat: Catalog, key: VerKey, members: seq<Chunk>, jobId: string, now: string): Catalog
    requires members != []
  {
    var first := members[0];
    Catalog(cat.documents[key.doc := Document(Or(first.title, key.doc.document), key.version, now)],
            cat.versions[key := Version(|members|, jobId, Or(first.ingestedAt, now))])
  }

  /** The groups of a batch recorded one after another. */
  function RecordGroups(cat: Catalog, order: seq<VerKey>, chunks: seq<Chunk>, jobId: string, now: string): Catalog
    requires forall key :: key in order ==> Members(chunks, key) != []
  {
    if order == [] then cat
    else
      var before, key := order[..|order| - 1], order[|order| - 1];
      RecordGroup(RecordGroups(cat, before, chunks, jobId, now), key, Members(chunks, key), jobId, now)
  }

  function Record(cat: Catalog, chunks: seq<Chunk>, jobId: string, now: string): Catalog {
    GroupOrderMeans(chunks);
    RecordGroups(cat, GroupOrder(chunks), chunks, jobId, now)
  }

  /** The place of the last group of a document in the order, or -1. */
  function LastOf(order: seq<VerKey>, doc: DocKey): (i: int)
    ensures -1 <= i < |order|
    ensures i >= 0 ==> order[i].doc == doc
    ensures forall j :: i < j < |order| ==> order[j].doc != doc
  {
    if order == [] then -1
    else if order[|order| - 1].doc == doc then |order| - 1
    else LastOf(order[..|order| - 1], doc)
  }

  lemma {:induction false} RecordGroupsMeans(cat: Catalog, order: seq<VerKey>, chunks: seq<Chunk>, jobId: string,
                                             now: string)
    requires Distinct(order) && forall key :: key in order ==> Members(chunks, key) != []
    ensures var after := RecordGroups(cat, order, chunks, jobId, now);
            && (forall key :: key in after.versions <==> key in cat.versions || key in order)
            && (forall key :: key in order ==>
                  after.versions[key] ==
                      Version(|Members(chunks, key)|, jobId, Or(Members(chunks, key)[0].ingestedAt, now)))
            && (forall key :: key in cat.versions && key !in order ==> after.versions[key] == cat.versions[key])
            && (forall doc :: doc in after.documents <==> doc in cat.documents || LastOf(order, doc) >= 0)
            && (forall doc :: LastOf(order, doc) >= 0 ==>
                  var key := order[LastOf(order, doc)];
                  after.documents[doc] == Document(Or(Members(chunks, key)[0].title, doc.document), key.version, now))
            && (forall doc :: doc in cat.documents && LastOf(order, doc) < 0 ==>
                after.documents[doc] == cat.documents[doc])
  {
    if order != [] {
      var front, last := order[..|order| - 1], order[|order| - 1];
      assert forall key :: key in order <==> key in front || key == last;
      RecordGroupsMeans(cat, front, chunks, jobId, now);
    }
  }

  /** Recording a batch writes one version row for each key with a chunk in it, counting
      its chunks, and leaves the other rows; each document touched ends with the version
      whose first chunk comes last in the batch as its latest. */
  lemma RecordMeans(cat: Catalog, chunks: seq<Chunk>, jobId: string, now: string)
    ensures var after := Record(cat, chunks, jobId, now);
            var order := GroupOrder(chunks);
            && (forall key :: key in after.versions <==> key in cat.versions || key in order)
            && (forall key :: key in order ==>
                  && Members(chunks, key) != []
                  && after.versions[key] ==
                      Version(|Members(chunks, key)|, jobId, Or(Members(chunks, key)[0].ingestedAt, now)))
            && (forall key :: key in cat.versions && key !in order ==> after.versions[key] == cat.versions[key])
            && (forall doc :: doc in after.documents <==> doc in cat.documents || LastOf(order, doc) >= 0)
            && (forall doc :: LastOf(order, doc) >= 0 ==>
                after.documents[doc].latest == order[LastOf(order, doc)].version)
            && (forall doc :: doc in cat.documents && LastOf(order, doc) < 0 ==>
                after.documents[doc] == cat.documents[doc])
  {
    GroupOrderMeans(chunks);
    RecordGroupsMeans(cat, GroupOrder(chunks), chunks, jobId, now);
  }

  /** A chunk of this tenant, collection, document and version; a chunk without a version is of v1. */
  predicate OfVersion(c: Chunk, tenant: string, collection: string, document: string, version: string) {
    && c.tenant == tenant && c.collection == collection && c.document == document
    && (c.version == version || (c.version == "" && version == "v1"))
  }

  predicate AllNamed(tenant: string, collection: string, document: string, version: string) {
    tenant != "" && collection != "" && document != "" && version != ""
  }

  lemma {:induction false} MembersAreOfVersion(chunks: seq<Chunk>, tenant: string, collection: string,
                                               document: string, version: string)
    requires AllNamed(tenant, collection, document, version)
    ensures Members(chunks, VerKey(DocKey(tenant, collection, document), version)) ==
            Filter(chunks, (c: Chunk) => OfVersion(c, tenant, collection, document, version))
  {
    if chunks != [] { MembersAreOfVersion(chunks[..|chunks| - 1], tenant, collection, document, version); }
  }

  /** What recording a batch leaves in the version row of a tenant, collection, document and
      version: the number of its chunks in the batch, the job, and the ingest time its first
      one carries, or this moment; without such a chunk the row stays as it was. */
  lemma VersionRowOfBatch(cat: Catalog, chunks: seq<Chunk>, jobId: string, now: string, tenant: string,
                          collection: string, document: string, version: string)
    requires AllNamed(tenant, collection, document, version)
    ensures var after, key := Record(cat, chunks, jobId, now), VerKey(DocKey(tenant, collection, document), version);
            var mine := Filter(chunks, (c: Chunk) => OfVersion(c, tenant, collection, document, version));
            if mine == [] then
              && (key in after.versions <==> key in cat.versions)
              && (key in cat.versions ==> after.versions[key] == cat.versions[key])
            else
              && key in after.versions
              && after.versions[key] ==
                   Version(|mine|, jobId, if mine[0].ingestedAt != "" then mine[0].ingestedAt else now)
  {
    MembersAreOfVersion(chunks, tenant, collection, document, version);
    GroupOrderMeans(chunks);
    RecordMeans(cat, chunks, jobId, now);
  }

  /** A batch makes no row in which the tenant, collection, document or version has no name. */
  lemma NoNamelessRow(cat: Catalog, chunks: seq<Chunk>, jobId: string, now: string, key: VerKey)
    requires key in Record(cat, chunks, jobId, now).versions && key !in cat.versions
    ensures AllNamed(key.doc.tenant, key.doc.collection, key.doc.document, key.version)
    ensures exists c :: c in chunks && OfVersion(c, key.doc.tenant, key.doc.collection, key.doc.document, key.version)
  {
    GroupOrderMeans(chunks);
    RecordMeans(cat, chunks, jobId, now);
    var c :| c in chunks && In(c, key);
  }

  /** What recording a batch leaves in the row of a document it has one version of: the title
      its first chunk carries, or its id; that version as the latest; and this moment. */
  lemma DocumentRowOfBatch(cat: Catalog, chunks: seq<Chunk>, jobId: string, now: string, tenant: string,
                           collection: string, document: string, version: string)
    requires AllNamed(tenant, collection, document, version)
    requires forall c :: c in chunks && c.tenant == tenant && c.collection == collection && c.document == document ==>
               OfVersion(c, tenant, collection, document, version)
    ensures var after, doc := Record(cat, chunks, jobId, now), DocKey(tenant, collection, document);
            var mine := Filter(chunks, (c: Chunk) => OfVersion(c, tenant, collection, document, version));
            if mine == [] then
              && (doc in after.documents <==> doc in cat.documents)
              && (doc in cat.documents ==> after.documents[doc] == cat.documents[doc])
            else
              && doc in after.documents
              && after.documents[doc] ==
                   Document(if mine[0].title != "" then mine[0].title else document, version, now)
  {
    var doc, order := DocKey(tenant, collection, document), GroupOrder(chunks);
    var key := VerKey(doc, version);
    MembersAreOfVersion(chunks, tenant, collection, document, version);
    GroupOrderMeans(chunks);
    RecordGroupsMeans(cat, order, chunks, jobId, now);
    var i := LastOf(order, doc);
    if i >= 0 {
      assert order[i] in order;
      var c :| c in chunks && In(c, order[i]);
      assert order[i] == key;
    }
    if key in order {
      var k :| 0 <= k < |order| && order[k] == key;
      assert i >= k;
    }
  }

  // ----- rows refer to each other -----

  /** Every version row has its document row; every document's latest version has a row. */
  ghost predicate Coherent(cat: Catalog) {
    && (forall key :: key in cat.versions ==> key.doc in cat.documents)
    && (forall doc :: doc in cat.documents ==> VerKey(doc, cat.documents[doc].latest) in cat.versions)
  }

  lemma RecordKeepsCoherent(cat: Catalog, chunks: seq<Chunk>, jobId: string, now: string)
    requires Coherent(cat)
    ensures Coherent(Record(cat, chunks, jobId, now))
  {
    RecordMeans(cat, chunks, jobId, now);
    var after, order := Record(cat, chunks, jobId, now), GroupOrder(chunks);
    forall key | key in after.versions ensures key.doc in after.documents {
      if key in order {
        var i :| 0 <= i < |order| && order[i] == key;
        assert LastOf(order, key.doc) >= 0;
      }
    }
    forall doc | doc in after.documents ensures VerKey(doc, after.documents[doc].latest) in after.versions {
      if LastOf(order, doc) >= 0 { assert order[LastOf(order, doc)] in order; }
    }
  }

  /** No version row has an empty id: recording puts v1 in its place. */
  ghost predicate VersionsNamed(cat: Catalog) {
    forall key :: key in cat.versions ==> key.version != ""
  }

  lemma RecordKeepsNamed(cat: Catalog, chunks: seq<Chunk>, jobId: string, now: string)
    requires VersionsNamed(cat)
    ensures VersionsNamed(Record(cat, chunks, jobId, now))
  {
    GroupOrderMeans(chunks);
    RecordMeans(cat, chunks, jobId, now);
  }

  // ----- counting chunks -----

  /** A tenant's version rows with their chunk counts. */
  function Counts(versions: Versions, tenant: string): map<VerKey, int> {
    map key | key in versions && key.doc.tenant == tenant :: versions[key].chunkCount
  }

  ghost function ChunkCount(versions: Versions, tenant: string): int {
    Sum(Counts(versions, tenant))
  }

  /** The chunks of a batch that count for a tenant. */
  function PlacedFor(chunks: seq<Chunk>, tenant: string): (n: nat)
    ensures n <= |chunks|
  {
    if chunks == [] then 0
    else PlacedFor(chunks[..|chunks| - 1], tenant)
         + if Placed(chunks[|chunks| - 1]) && chunks[|chunks| - 1].tenant == tenant then 1 else 0
  }

  /** What the tenant's versions named in a batch counted before. */
  function Overwritten(versions: Versions, order: seq<VerKey>, tenant: string): nat {
    if order == [] then 0
    else
      var key := order[|order| - 1];
      Overwritten(versions, order[..|order| - 1], tenant)
      + if key.doc.tenant == tenant && key in versions then versions[key].chunkCount else 0
  }

  function MembersFor(order: seq<VerKey>, chunks: seq<Chunk>, tenant: string): nat {
    if order == [] then 0
    else
      var key := order[|order| - 1];
      MembersFor(order[..|order| - 1], chunks, tenant) + if key.doc.tenant == tenant then |Members(chunks, key)| else 0
  }

  lemma CountUpdate(versions: Versions, key: VerKey, v: Version, tenant: string)
    ensures ChunkCount(versions[key := v], tenant) ==
            ChunkCount(versions, tenant)
            + if key.doc.tenant != tenant then 0
              else v.chunkCount - if key in versions then versions[key].chunkCount else 0
  {
    if key.doc.tenant == tenant {
      assert Counts(versions[key := v], tenant) == Counts(versions, tenant)[key := v.chunkCount];
      SumUpdate(Counts(versions, tenant), key, v.chunkCount);
    } else {
      assert Counts(versions[key := v], tenant) == Counts(versions, tenant);
    }
  }

  lemma {:induction false} CountRecordGroups(cat: Catalog, order: seq<VerKey>, chunks: seq<Chunk>, jobId: string,
                                             now: string, tenant: string)
    requires Distinct(order) && forall key :: key in order ==> Members(chunks, key) != []
    ensures ChunkCount(RecordGroups(cat, order, chunks, jobId, now).versions, tenant) ==
            ChunkCount(cat.versions, tenant)
                + MembersFor(order, chunks, tenant) - Overwritten(cat.versions, order, tenant)
  {
    if order != [] {
      var front, last := order[..|order| - 1], order[|order| - 1];
      CountRecordGroups(cat, front, chunks, jobId, now, tenant);
      RecordGroupsMeans(cat, front, chunks, jobId, now);
      var before := RecordGroups(cat, front, chunks, jobId, now);
      assert last !in front;
      var members := Members(chunks, last);
      CountUpdate(before.versions, last, Version(|members|, jobId, Or(members[0].ingestedAt, now)), tenant);
    }
  }

  lemma {:induction false} OneMoreMember(order: seq<VerKey>, front: seq<Chunk>, last: Chunk, tenant: string)
    requires Distinct(order)
    ensures MembersFor(order, front + [last], tenant) ==
            MembersFor(order, front, tenant)
            + if Placed(last) && last.tenant == tenant && KeyOf(last) in order then 1 else 0
  {
    if order != [] {
      var key := order[|order| - 1];
      OneMoreMember(order[..|order| - 1], front, last, tenant);
      assert (front + [last])[..|front|] == front;
      assert KeyOf(last) in order <==> KeyOf(last) in order[..|order| - 1] || KeyOf(last) == key;
    }
  }

  lemma MembersForSnoc(order: seq<VerKey>, key: VerKey, chunks: seq<Chunk>, tenant: string)
    ensures MembersFor(order + [key], chunks, tenant) ==
            MembersFor(order, chunks, tenant) + if key.doc.tenant == tenant then |Members(chunks, key)| else 0
  {
    assert (order + [key])[..|order|] == order;
  }

  /** What one more chunk adds to the grouping of a batch. */
  lemma BatchSnoc(front: seq<Chunk>, last: Chunk, tenant: string)
    ensures GroupOrder(front + [last]) ==
            if Placed(last) && KeyOf(last) !in GroupOrder(front) then GroupOrder(front) + [KeyOf(last)]
            else GroupOrder(front)
    ensures PlacedFor(front + [last], tenant) ==
            PlacedFor(front, tenant) + if Placed(last) && last.tenant == tenant then 1 else 0
    ensures forall key :: Members(front + [last], key) == Members(front, key) + if In(last, key) then [last] else []
  {
    assert (front + [last])[..|front|] == front;
  }

  lemma {:induction false} MembersCoverBatch(chunks: seq<Chunk>, tenant: string)
    ensures MembersFor(GroupOrder(chunks), chunks, tenant) == PlacedFor(chunks, tenant)
  {
    if chunks != [] {
      var front, last := chunks[..|chunks| - 1], chunks[|chunks| - 1];
      MembersCoverBatch(front, tenant);
      MembersCoverOneMore(front, last, tenant);
      assert chunks == front + [last];
    }
  }

  lemma MembersCoverOneMore(front: seq<Chunk>, last: Chunk, tenant: string)
    requires MembersFor(GroupOrder(front), front, tenant) == PlacedFor(front, tenant)
    ensures MembersFor(GroupOrder(front + [last]), front + [last], tenant) == PlacedFor(front + [last], tenant)
  {
    var order, all := GroupOrder(front), front + [last];
    GroupOrderMeans(front);
    BatchSnoc(front, last, tenant);
    OneMoreMember(order, front, last, tenant);
    if Placed(last) && KeyOf(last) !in order {
      MembersForSnoc(order, KeyOf(last), all, tenant);
      assert Members(front, KeyOf(last)) == [];
      assert |Members(all, KeyOf(last))| == 1;
    }
  }

  /** Recording a batch changes a tenant's chunk count by its placed chunks less the counts
      of the version rows it overwrites. */
  lemma RecordConservesCount(cat: Catalog, chunks: seq<Chunk>, jobId: string, now: string, tenant: string)
    ensures ChunkCount(Record(cat, chunks, jobId, now).versions, tenant) ==
            ChunkCount(cat.versions, tenant)
                + PlacedFor(chunks, tenant) - Overwritten(cat.versions, GroupOrder(chunks), tenant)
  {
    GroupOrderMeans(chunks);
    CountRecordGroups(cat, GroupOrder(chunks), chunks, jobId, now, tenant);
    MembersCoverBatch(chunks, tenant);
  }

  /** Removing rows never adds to a tenant's count. */
  lemma RemovingNeverAdds(versions: Versions, fewer: Versions, tenant: string)
    requires fewer.Keys <= versions.Keys && forall key :: key in fewer ==> fewer[key] == versions[key]
    ensures ChunkCount(fewer, tenant) <= ChunkCount(versions, tenant)
  {
    SumMonotone(Counts(fewer, tenant), Counts(versions, tenant));
  }

  // ----- purging a tenant -----

  function Purge(cat: Catalog, tenant: string): Catalog {
    Catalog(map doc | doc in cat.documents && doc.tenant != tenant :: cat.documents[doc],
            map key | key in cat.versions && key.doc.tenant != tenant :: cat.versions[key])
  }

  /** A purge takes all of one tenant's rows and none of another's, and keeps the rest coherent. */
  lemma PurgeIsolates(cat: Catalog, tenant: string, other: string)
    requires tenant != other
    ensures var after := Purge(cat, tenant);
            && ChunkCount(after.versions, tenant) == 0
            && (forall doc :: doc in after.documents ==> doc.tenant != tenant)
            && (forall key :: key in after.versions ==> key.doc.tenant != tenant)
            && Counts(after.versions, other) == Counts(cat.versions, other)
            && (forall doc: DocKey :: doc.tenant == other ==> (doc in after.documents <==> doc in cat.documents))
            && (forall doc: DocKey :: doc.tenant == other && doc in cat.documents ==>
                after.documents[doc] == cat.documents[doc])
            && (Coherent(cat) ==> Coherent(after))
  {
    assert Counts(Purge(cat, tenant).versions, tenant) == map[];
  }

  // ----- which versions may be pruned -----

  /** The versions of one document. */
  function VersionsOf(versions: Versions, doc: DocKey): set<VerKey> {
    set key | key in versions && key.doc == doc
  }

  function RankKey(versions: Versions, key: VerKey): (string, string)
    requires key in versions
  {
    (versions[key].ingestedAt, key.version)
  }

  /** The versions of the same document that are newer: a later ingest time, or the same and a greater id. */
  function Newer(versions: Versions, key: VerKey): set<VerKey>
    requires key in versions
  {
    set other | other in versions && other.doc == key.doc && other != key
        && PairLe(RankKey(versions, key), RankKey(versions, other))
  }

  /** Not the latest, and enough newer versions of its document: for keep_count not negative
      that is keep_count of them; a negative keep_count, as a Python slice bound, counts
      from the oldest. */
  ghost predicate Prunable(cat: Catalog, keepCount: int, key: VerKey) {
    && key in cat.versions && key.doc in cat.documents
    && key.version != cat.documents[key.doc].latest
    && |Newer(cat.versions, key)| >= SliceStart(|VersionsOf(cat.versions, key.doc)|, keepCount)
  }

  /** The rule as the SQL of the Postgres store writes it: row number above keep_count. */
  ghost predicate PrunableBySql(cat: Catalog, keepCount: int, key: VerKey) {
    && key in cat.versions && key.doc in cat.documents
    && key.version != cat.documents[key.doc].latest
    && |Newer(cat.versions, key)| + 1 > keepCount
  }

  ghost function PrunableSet(cat: Catalog, keepCount: int): set<VerKey> {
    set key | key in cat.versions && Prunable(cat, keepCount, key)
  }

  function Without(cat: Catalog, gone: set<VerKey>): Catalog {
    Catalog(cat.documents, cat.versions - gone)
  }

  /** With a keep_count that is not negative a version goes exactly when its document has a row
      that names another version as the latest, and at least keep_count versions of the
      document are newer: ingested later, or at the same time with a greater id. */
  lemma PrunableIff(cat: Catalog, keepCount: nat, key: VerKey)
    ensures Prunable(cat, keepCount, key) <==>
            && key in cat.versions && key.doc in cat.documents && key.version != cat.documents[key.doc].latest
            && |set other | other in cat.versions && other.doc == key.doc
                            && (|| StringLt(cat.versions[key].ingestedAt, cat.versions[other].ingestedAt)
                                || (cat.versions[other].ingestedAt == cat.versions[key].ingestedAt
                                    && StringLt(key.version, other.version)))| >= keepCount
  {
    if key in cat.versions {
      NewerAreFewer(cat.versions, key);
      StringLeIsTotalOrder();
      assert Newer(cat.versions, key) ==
             set other | other in cat.versions && other.doc == key.doc
                         && (|| StringLt(cat.versions[key].ingestedAt, cat.versions[other].ingestedAt)
                             || (cat.versions[other].ingestedAt == cat.versions[key].ingestedAt
                                 && StringLt(key.version, other.version)));
    }
  }

  lemma NewerAreFewer(versions: Versions, key: VerKey)
    requires key in versions
    ensures |Newer(versions, key)| < |VersionsOf(versions, key.doc)|
  {
    var all, newer := VersionsOf(versions, key.doc), Newer(versions, key);
    SubsetSize(newer, all - {key});
    assert |all - {key}| == |all| - 1;
  }

  /** For a keep_count that is not negative both stores prune by the same rule. */
  lemma StoresAgree(cat: Catalog, keepCount: int, key: VerKey)
    requires keepCount >= 0
    ensures Prunable(cat, keepCount, key) <==> PrunableBySql(cat, keepCount, key)
  {
    if key in cat.versions { NewerAreFewer(cat.versions, key); }
  }

  /** A latest version is never prunable, so pruning keeps the rows coherent; and what is
      not prunable stays as it was. */
  lemma PruneKeepsCoherent(cat: Catalog, keepCount: int)
    requires Coherent(cat)
    ensures Coherent(Without(cat, PrunableSet(cat, keepCount)))
  {
  }

  /** After a prune with a keep_count that is not negative there is nothing left to prune. */
  lemma SecondPruneFindsNothing(cat: Catalog, keepCount: int)
    requires keepCount >= 0
    ensures PrunableSet(Without(cat, PrunableSet(cat, keepCount)), keepCount) == {}
  {
    var after := Without(cat, PrunableSet(cat, keepCount));
    forall key | key in after.versions ensures !Prunable(after, keepCount, key) {
      SubsetSize(Newer(after.versions, key), Newer(cat.versions, key));
      StoresAgree(cat, keepCount, key);
      StoresAgree(after, keepCount, key);
    }
  }
}
