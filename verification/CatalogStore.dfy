/** The in-memory catalog store (ingest/app/catalog_store.py), updated in place. */
module CatalogStores {
  import opened PythonLists
  import opened SetSizes
  import opened Sorting
  import opened MapSums
  import opened CatalogSpec

  /** _group_chunks: a dictionary in insertion order. */
  method GroupChunks(chunks: seq<Chunk>) returns (order: seq<VerKey>, groups: map<VerKey, seq<Chunk>>)
    ensures order == GroupOrder(chunks)
    ensures forall key :: key in groups <==> key in order
    ensures forall key :: key in order ==> groups[key] == Members(chunks, key) && groups[key] != []
  {
    order, groups := [], map[];
    for i := 0 to |chunks|
      invariant order == GroupOrder(chunks[..i])
      invariant forall key :: key in groups <==> key in order
      invariant forall key :: key in groups ==> groups[key] == Members(chunks[..i], key)
    {
      var c := chunks[i];
      BatchSnoc(chunks[..i], c, "");
      assert chunks[..i + 1] == chunks[..i] + [c];
      GroupOrderMeans(chunks[..i]);
      if Placed(c) {
        var key := KeyOf(c);
        if key !in groups {
          order, groups := order + [key], groups[key := []];
          assert Members(chunks[..i], key) == [];
        }
        groups := groups[key := groups[key] + [c]];
      }
    }
    assert chunks[..|chunks|] == chunks;
    GroupOrderMeans(chunks);
  }

  /** A version row with its document's latest version, as the listing sorts it. */
  datatype Row = Row(key: VerKey, ingestedAt: string, chunkCount: nat, latest: string)

  function RowKey(row: Row): VerKey { row.key }

  predicate NewestFirst(a: Row, b: Row) {
    PairLe((b.ingestedAt, b.key.version), (a.ingestedAt, a.key.version))
  }

  datatype Candidate = Candidate(key: VerKey, chunkCount: nat)

  /** The rows are the versions of one document among those seen, each once. */
  ghost predicate RowsAmong(cat: Catalog, rows: seq<Row>, doc: DocKey, seen: set<VerKey>) {
    && doc in cat.documents
    && (forall i :: 0 <= i < |rows| ==>
          rows[i].key in VersionsOf(cat.versions, doc) && rows[i].key in seen && rows[i] == RowOf(cat, rows[i].key))
    && (forall i, j :: 0 <= i < j < |rows| ==> rows[i].key != rows[j].key)
    && (forall key :: key in VersionsOf(cat.versions, doc) && key in seen ==>
          exists i :: 0 <= i < |rows| && rows[i].key == key)
  }

  ghost predicate RowsOf(cat: Catalog, rows: seq<Row>, doc: DocKey) {
    RowsAmong(cat, rows, doc, cat.versions.Keys)
  }

  ghost function RowOf(cat: Catalog, key: VerKey): Row
    requires key in cat.versions && key.doc in cat.documents
  {
    Row(key, cat.versions[key].ingestedAt, cat.versions[key].chunkCount, cat.documents[key.doc].latest)
  }

  lemma NewestFirstIsPreorder()
    ensures TotalPreorder(NewestFirst)
  {
    PairLeIsTotalOrder();
    forall a, b, c | NewestFirst(a, b) && NewestFirst(b, c) ensures NewestFirst(a, c) {
      assert PairLe((c.ingestedAt, c.key.version), (b.ingestedAt, b.key.version));
    }
  }

  lemma RowsSize(cat: Catalog, rows: seq<Row>, doc: DocKey)
    requires RowsOf(cat, rows, doc)
    ensures |rows| == |VersionsOf(cat.versions, doc)|
  {
    ImageSize(rows, |rows|, RowKey);
    assert Image(rows, |rows|, RowKey) == VersionsOf(cat.versions, doc);
  }

  /** Sorting keeps the rows, so it keeps what they say. */
  lemma SortKeepsRows(cat: Catalog, rows: seq<Row>, doc: DocKey)
    requires RowsOf(cat, rows, doc)
    ensures RowsOf(cat, Sort(rows, NewestFirst), doc)
  {
    var sorted := Sort(rows, NewestFirst);
    SortHasSameMembers(rows, NewestFirst);
    forall i | 0 <= i < |sorted|
      ensures sorted[i].key in VersionsOf(cat.versions, doc) && sorted[i] == RowOf(cat, sorted[i].key)
    {
      assert sorted[i] in rows;
    }
    SortDistinct(rows, NewestFirst, (r: Row) => r.key);
    forall key | key in VersionsOf(cat.versions, doc) ensures exists i :: 0 <= i < |sorted| && sorted[i].key == key {
      var i :| 0 <= i < |rows| && rows[i].key == key;
      assert rows[i] in sorted;
    }
  }

  lemma NewerStandsAhead(cat: Catalog, sorted: seq<Row>, doc: DocKey, i: nat, j: nat)
    requires RowsOf(cat, sorted, doc) && Sorted(sorted, NewestFirst) && i < |sorted| && j < |sorted|
    ensures sorted[j].key in Newer(cat.versions, sorted[i].key) <==> j < i
  {
    if j < i {
      assert NewestFirst(sorted[j], sorted[i]);
    } else if i < j {
      PairLeIsTotalOrder();
      assert NewestFirst(sorted[i], sorted[j]);
      assert RankKey(cat.versions, sorted[i].key) != RankKey(cat.versions, sorted[j].key);
    }
  }

  /** In newest-first order a version stands behind exactly the newer ones. */
  lemma PlaceIsRank(cat: Catalog, sorted: seq<Row>, doc: DocKey, i: nat)
    requires RowsOf(cat, sorted, doc) && Sorted(sorted, NewestFirst) && i < |sorted|
    ensures |Newer(cat.versions, sorted[i].key)| == i
  {
    var key := sorted[i].key;
    var ahead := Image(sorted, i, RowKey);
    forall other ensures other in Newer(cat.versions, key) <==> other in ahead {
      if other in Newer(cat.versions, key) {
        assert other in VersionsOf(cat.versions, doc);
        var j: nat :| j < |sorted| && sorted[j].key == other;
        NewerStandsAhead(cat, sorted, doc, i, j);
      }
      if other in ahead {
        var j: nat :| j < i && sorted[j].key == other;
        NewerStandsAhead(cat, sorted, doc, i, j);
      }
    }
    assert Newer(cat.versions, key) == ahead;
    ImageSize(sorted, i, RowKey);
  }

  lemma OneMoreRow(cat: Catalog, rows: seq<Row>, key: VerKey, seen: set<VerKey>)
    requires key in cat.versions && key !in seen && RowsAmong(cat, rows, key.doc, seen)
    ensures RowsAmong(cat, rows + [RowOf(cat, key)], key.doc, seen + {key})
  {
    var more := rows + [RowOf(cat, key)];
    forall k | k in VersionsOf(cat.versions, key.doc) && k in seen + {key}
      ensures exists i :: 0 <= i < |more| && more[i].key == k
    {
      if k == key {
        assert more[|rows|].key == key;
      } else {
        var i :| 0 <= i < |rows| && rows[i].key == k;
        assert more[i].key == k;
      }
    }
  }

  /** The rows seen so far, by document; a version without a document row is skipped. */
  ghost predicate Grouped(cat: Catalog, grouped: map<DocKey, seq<Row>>, seen: set<VerKey>) {
    && (forall doc :: doc in grouped ==> RowsAmong(cat, grouped[doc], doc, seen))
    && (forall key :: key in seen && key.doc in cat.documents ==> key.doc in grouped)
  }

  lemma GroupedSkips(cat: Catalog, grouped: map<DocKey, seq<Row>>, key: VerKey, seen: set<VerKey>)
    requires Grouped(cat, grouped, seen) && key.doc !in cat.documents
    ensures Grouped(cat, grouped, seen + {key})
  {
    forall doc | doc in grouped ensures RowsAmong(cat, grouped[doc], doc, seen + {key}) {
      assert RowsAmong(cat, grouped[doc], doc, seen);
    }
  }

  lemma GroupedAdds(cat: Catalog, grouped: map<DocKey, seq<Row>>, key: VerKey, seen: set<VerKey>)
    requires Grouped(cat, grouped, seen) && key in cat.versions && key !in seen && key.doc in cat.documents
    ensures var rows := if key.doc in grouped then grouped[key.doc] else [];
            Grouped(cat, grouped[key.doc := rows + [RowOf(cat, key)]], seen + {key})
  {
    var rows := if key.doc in grouped then grouped[key.doc] else [];
    assert RowsAmong(cat, rows, key.doc, seen);
    OneMoreRow(cat, rows, key, seen);
    var after := grouped[key.doc := rows + [RowOf(cat, key)]];
    forall doc | doc in after ensures RowsAmong(cat, after[doc], doc, seen + {key}) {
      if doc != key.doc { assert RowsAmong(cat, grouped[doc], doc, seen); }
    }
  }

  /** The first loop of the listing. */
  method GroupRows(cat: Catalog) returns (grouped: map<DocKey, seq<Row>>)
    ensures Grouped(cat, grouped, cat.versions.Keys)
  {
    grouped := map[];
    var remaining := cat.versions.Keys;
    while remaining != {}
      invariant remaining <= cat.versions.Keys
      invariant Grouped(cat, grouped, cat.versions.Keys - remaining)
      decreases |remaining|
    {
      var key :| key in remaining;
      ghost var seen := cat.versions.Keys - remaining;
      if key.doc in cat.documents {
        var version := cat.versions[key];
        var row := Row(key, version.ingestedAt, version.chunkCount, cat.documents[key.doc].latest);
        GroupedAdds(cat, grouped, key, seen);
        grouped := grouped[key.doc := (if key.doc in grouped then grouped[key.doc] else []) + [row]];
      } else {
        GroupedSkips(cat, grouped, key, seen);
      }
      remaining := remaining - {key};
      assert cat.versions.Keys - remaining == seen + {key};
    }
    assert cat.versions.Keys - remaining == cat.versions.Keys;
  }

  /** The candidates are the prunable versions of the documents, each once, with their chunk counts. */
  ghost predicate ListsPrunable(cat: Catalog, keepCount: int, docs: set<DocKey>, prunable: seq<Candidate>) {
    && (forall i :: 0 <= i < |prunable| ==>
          && Prunable(cat, keepCount, prunable[i].key) && prunable[i].key.doc in docs
          && prunable[i].chunkCount == cat.versions[prunable[i].key].chunkCount)
    && DistinctKeys(prunable)
    && (forall key :: Prunable(cat, keepCount, key) && key.doc in docs ==> HasKey(prunable, key))
  }

  /** The rows from lo up to hi that are not the latest version. */
  function Cut(versions: seq<Row>, lo: nat, hi: nat): seq<Candidate>
    requires hi <= |versions|
  {
    if hi <= lo then []
    else
      var row := versions[hi - 1];
      Cut(versions, lo, hi - 1) + if row.key.version != row.latest then [Candidate(row.key, row.chunkCount)] else []
  }

  /** The second loop for one document: sort, cut, and skip the latest. */
  method PrunableOf(cat: Catalog, rows: seq<Row>, keepCount: int, ghost doc: DocKey) returns (prunable: seq<Candidate>)
    requires RowsOf(cat, rows, doc)
    ensures ListsPrunable(cat, keepCount, {doc}, prunable)
  {
    var versions := Sort(rows, NewestFirst);
    prunable := [];
    var start := SliceStart(|versions|, keepCount);
    var i := start;
    while i < |versions|
      invariant start <= i <= |versions|
      invariant prunable == Cut(versions, start, i)
    {
      var version := versions[i];
      if version.key.version != version.latest {
        prunable := prunable + [Candidate(version.key, version.chunkCount)];
      }
      i := i + 1;
    }
    SortedRowsCut(cat, rows, keepCount, doc);
  }

  lemma SortedRowsCut(cat: Catalog, rows: seq<Row>, keepCount: int, doc: DocKey)
    requires RowsOf(cat, rows, doc)
    ensures var versions := Sort(rows, NewestFirst);
            ListsPrunable(cat, keepCount, {doc}, Cut(versions, SliceStart(|versions|, keepCount), |versions|))
  {
    SortKeepsRows(cat, rows, doc);
    NewestFirstIsPreorder();
    SortIsSorted(rows, NewestFirst);
    CutIsPrunable(cat, Sort(rows, NewestFirst), keepCount, doc);
  }

  predicate FromRow(row: Row, c: Candidate) {
    c.key == row.key && c.chunkCount == row.chunkCount && row.key.version != row.latest
  }

  ghost predicate HasKey(prunable: seq<Candidate>, key: VerKey) {
    exists k :: 0 <= k < |prunable| && prunable[k].key == key
  }

  /** The row a candidate was cut from. */
  lemma {:induction false} CutFrom(versions: seq<Row>, lo: nat, hi: nat, k: nat) returns (m: nat)
    requires hi <= |versions| && k < |Cut(versions, lo, hi)|
    ensures lo <= m < hi && FromRow(versions[m], Cut(versions, lo, hi)[k])
  {
    if k < |Cut(versions, lo, hi - 1)| {
      m := CutFrom(versions, lo, hi - 1, k);
    } else {
      m := hi - 1;
    }
  }

  /** The candidate cut from a row. */
  lemma {:induction false} CutTo(versions: seq<Row>, lo: nat, hi: nat, m: nat)
    requires lo <= m < hi <= |versions| && versions[m].key.version != versions[m].latest
    ensures HasKey(Cut(versions, lo, hi), versions[m].key)
  {
    var before, cut := Cut(versions, lo, hi - 1), Cut(versions, lo, hi);
    if m < hi - 1 {
      CutTo(versions, lo, hi - 1, m);
      var k :| 0 <= k < |before| && before[k].key == versions[m].key;
      assert cut[k].key == versions[m].key;
    } else {
      assert cut[|before|].key == versions[m].key;
    }
  }

  predicate DistinctKeys(prunable: seq<Candidate>) {
    forall k, l :: 0 <= k < l < |prunable| ==> prunable[k].key != prunable[l].key
  }

  lemma {:induction false} CutDistinct(versions: seq<Row>, lo: nat, hi: nat)
    requires hi <= |versions|
    requires forall i, j :: 0 <= i < j < |versions| ==> versions[i].key != versions[j].key
    ensures DistinctKeys(Cut(versions, lo, hi))
  {
    if lo < hi {
      CutDistinct(versions, lo, hi - 1);
      var before, cut := Cut(versions, lo, hi - 1), Cut(versions, lo, hi);
      forall k | 0 <= k < |before| ensures before[k].key != versions[hi - 1].key {
        var m := CutFrom(versions, lo, hi - 1, k);
        assert versions[m].key != versions[hi - 1].key;
      }
    }
  }

  lemma {:induction false} CutIsPrunable(cat: Catalog, versions: seq<Row>, keepCount: int, doc: DocKey)
    requires RowsOf(cat, versions, doc) && Sorted(versions, NewestFirst)
    ensures ListsPrunable(cat, keepCount, {doc}, Cut(versions, SliceStart(|versions|, keepCount), |versions|))
  {
    var start := SliceStart(|versions|, keepCount);
    var prunable := Cut(versions, start, |versions|);
    RowsSize(cat, versions, doc);
    CutDistinct(versions, start, |versions|);
    forall k | 0 <= k < |prunable|
      ensures Prunable(cat, keepCount, prunable[k].key) && prunable[k].key.doc == doc
      ensures prunable[k].chunkCount == cat.versions[prunable[k].key].chunkCount
    {
      var m := CutFrom(versions, start, |versions|, k);
      PlaceIsRank(cat, versions, doc, m);
    }
    forall key | Prunable(cat, keepCount, key) && key.doc == doc ensures HasKey(prunable, key) {
      assert key in VersionsOf(cat.versions, doc);
      var m :| 0 <= m < |versions| && versions[m].key == key;
      PlaceIsRank(cat, versions, doc, m);
      CutTo(versions, start, |versions|, m);
    }
  }

  lemma ListsJoin(cat: Catalog, keepCount: int, docs: set<DocKey>, doc: DocKey, a: seq<Candidate>, b: seq<Candidate>)
    requires ListsPrunable(cat, keepCount, docs, a) && ListsPrunable(cat, keepCount, {doc}, b) && doc !in docs
    ensures ListsPrunable(cat, keepCount, docs + {doc}, a + b)
  {
    var all := a + b;
    forall key | Prunable(cat, keepCount, key) && key.doc in docs + {doc} ensures HasKey(all, key) {
      if key.doc == doc {
        assert HasKey(b, key);
        var i :| 0 <= i < |b| && b[i].key == key;
        assert all[|a| + i].key == key;
      } else {
        assert HasKey(a, key);
        var i :| 0 <= i < |a| && a[i].key == key;
        assert all[i].key == key;
      }
    }
    forall i, j | 0 <= i < j < |all| ensures all[i].key != all[j].key {
      if i < |a| <= j { assert a[i].key.doc in docs && b[j - |a|].key.doc == doc; }
    }
  }

  lemma NothingListed(cat: Catalog, keepCount: int, grouped: map<DocKey, seq<Row>>)
    requires Grouped(cat, grouped, cat.versions.Keys)
    ensures ListsPrunable(cat, keepCount, cat.documents.Keys - grouped.Keys, [])
  {
  }

  /** list_prunable_versions. */
  method ListPrunable(cat: Catalog, keepCount: int) returns (prunable: seq<Candidate>)
    ensures ListsPrunable(cat, keepCount, cat.documents.Keys, prunable)
  {
    var grouped := GroupRows(cat);
    prunable := [];
    NothingListed(cat, keepCount, grouped);
    var remaining := grouped.Keys;
    while remaining != {}
      invariant remaining <= grouped.Keys <= cat.documents.Keys
      invariant ListsPrunable(cat, keepCount, cat.documents.Keys - remaining, prunable)
      decreases |remaining|
    {
      var doc :| doc in remaining;
      assert RowsOf(cat, grouped[doc], doc);
      var more := PrunableOf(cat, grouped[doc], keepCount, doc);
      ListsJoin(cat, keepCount, cat.documents.Keys - remaining, doc, prunable, more);
      assert cat.documents.Keys - (remaining - {doc}) == cat.documents.Keys - remaining + {doc};
      prunable := prunable + more;
      remaining := remaining - {doc};
    }
    assert cat.documents.Keys - remaining == cat.documents.Keys;
  }

  function KeysOf(candidates: seq<Candidate>): set<VerKey> {
    set c | c in candidates :: c.key
  }

  lemma KeysOfNext(gone: seq<Candidate>, i: nat)
    requires i < |gone|
    ensures KeysOf(gone[..i + 1]) == KeysOf(gone[..i]) + {gone[i].key}
  {
    assert gone[..i + 1] == gone[..i] + [gone[i]];
  }

  lemma MinusMore(versions: Versions, gone: set<VerKey>, key: VerKey)
    ensures versions - (gone + {key}) == versions - gone - {key}
    ensures key !in versions - gone ==> versions - (gone + {key}) == versions - gone
  {
  }

  lemma RemoveOne(versions: Versions, key: VerKey)
    requires key in versions
    ensures |versions - {key}| == |versions| - 1
  {
    assert versions == (versions - {key})[key := versions[key]];
  }

  lemma RecordNext(cat: Catalog, order: seq<VerKey>, n: nat, chunks: seq<Chunk>, jobId: string, now: string)
    requires n < |order| && forall key :: key in order ==> Members(chunks, key) != []
    ensures RecordGroups(cat, order[..n + 1], chunks, jobId, now) ==
            RecordGroup(RecordGroups(cat, order[..n], chunks, jobId, now), order[n], Members(chunks, order[n]), jobId,
                        now)
  {
    assert order[..n + 1][..n] == order[..n];
  }

  // ----- the store -----

  /** A purge takes as many rows as the tenant had. */
  lemma PurgeTakes(cat: Catalog, tenant: string)
    ensures |set doc | doc in cat.documents && doc.tenant == tenant| + |Purge(cat, tenant).documents| == |cat.documents|
    ensures |set key | key in cat.versions && key.doc.tenant == tenant| + |Purge(cat, tenant).versions| ==
            |cat.versions|
  {
    PartSizes(cat.documents, Purge(cat, tenant).documents, set doc | doc in cat.documents && doc.tenant == tenant);
    PartSizes(cat.versions, Purge(cat, tenant).versions, set key | key in cat.versions && key.doc.tenant == tenant);
  }

  lemma PartSizes<K, V>(all: map<K, V>, rest: map<K, V>, taken: set<K>)
    requires rest.Keys == all.Keys - taken && taken <= all.Keys
    ensures |taken| + |rest| == |all|
  {
    assert |rest.Keys| == |all.Keys| - |taken|;
  }

  datatype TenantTotals = TenantTotals(collections: nat, documents: nat, versions: nat, chunks: int)

  class InMemoryCatalogStore {
    var documents: Documents
    var versions: Versions

    function Value(): Catalog
      reads this
    {
      Catalog(documents, versions)
    }

    constructor ()
      ensures Value() == Catalog(map[], map[])
    {
      documents, versions := map[], map[];
    }

    method RecordFromChunks(chunks: seq<Chunk>, jobId: string, now: string) returns (recorded: nat)
      modifies this
      ensures Value() == Record(old(Value()), chunks, jobId, now)
      ensures recorded == |GroupOrder(chunks)|
    {
      recorded := 0;
      var order, groups := GroupChunks(chunks);
      while recorded < |order|
        invariant recorded <= |order|
        invariant Value() == RecordGroups(old(Value()), order[..recorded], chunks, jobId, now)
      {
        var key := order[recorded];
        var docChunks := groups[key];
        var first := docChunks[0];
        documents := documents[key.doc := Document(Or(first.title, key.doc.document), key.version, now)];
        versions := versions[key := Version(|docChunks|, jobId, Or(first.ingestedAt, now))];
        RecordNext(old(Value()), order, recorded, chunks, jobId, now);
        recorded := recorded + 1;
      }
      assert order[..recorded] == order;
    }

    method CountTenantChunks(tenant: string) returns (n: int)
      ensures n == ChunkCount(versions, tenant)
    {
      n := 0;
      var remaining := Counts(versions, tenant);
      while remaining != map[]
        invariant n + Sum(remaining) == ChunkCount(versions, tenant)
        decreases |remaining|
      {
        var key :| key in remaining;
        SumWithout(remaining, key);
        n := n + remaining[key];
        remaining := remaining - {key};
      }
    }

    method ListPrunableVersions(keepCount: int) returns (prunable: seq<Candidate>)
      ensures ListsPrunable(Value(), keepCount, documents.Keys, prunable)
    {
      prunable := ListPrunable(Value(), keepCount);
    }

    /** delete_versions: a row is counted when it is there to delete. */
    method DeleteVersions(gone: seq<Candidate>) returns (deleted: nat)
      modifies this`versions
      ensures versions == old(versions) - KeysOf(gone)
      ensures deleted + |versions| == |old(versions)|
    {
      deleted := 0;
      for i := 0 to |gone|
        invariant versions == old(versions) - KeysOf(gone[..i])
        invariant deleted + |versions| == |old(versions)|
      {
        var key := gone[i].key;
        KeysOfNext(gone, i);
        MinusMore(old(versions), KeysOf(gone[..i]), key);
        if key in versions {
          RemoveOne(versions, key);
          versions := versions - {key};
          deleted := deleted + 1;
        }
      }
      assert gone[..|gone|] == gone;
    }

    method TenantScope(tenant: string) returns (totals: TenantTotals)
      ensures totals.documents == |set doc | doc in documents && doc.tenant == tenant|
      ensures totals.versions == |set key | key in versions && key.doc.tenant == tenant|
      ensures totals.collections == |set doc | doc in documents && doc.tenant == tenant :: doc.collection|
      ensures totals.chunks == ChunkCount(versions, tenant)
    {
      var chunks := CountTenantChunks(tenant);
      totals := TenantTotals(
        |set doc | doc in documents && doc.tenant == tenant :: doc.collection|,
        |set doc | doc in documents && doc.tenant == tenant|,
        |set key | key in versions && key.doc.tenant == tenant|,
        chunks);
    }

    method PurgeTenant(tenant: string) returns (totals: TenantTotals)
      modifies this
      ensures Value() == Purge(old(Value()), tenant)
      ensures totals.collections == |set doc | doc in old(documents) && doc.tenant == tenant :: doc.collection|
      ensures totals.documents == |old(documents)| - |documents|
      ensures totals.versions == |old(versions)| - |versions|
      ensures totals.chunks == ChunkCount(old(versions), tenant)
    {
      totals := TenantScope(tenant);
      PurgeTakes(Value(), tenant);
      versions := map key | key in versions && key.doc.tenant != tenant :: versions[key];
      documents := map doc | doc in documents && doc.tenant != tenant :: documents[doc];
    }
  }
}
