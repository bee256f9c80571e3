/** Listing documents page by page (query/app/catalog_store.py), to callers who may read
    them (query/app/acl.py). */
module CatalogPages {
  import opened PythonLists
  import opened Options
  import opened Sorting

  datatype Doc = Doc(tenant: string, collection: string, document: string, details: string)

  datatype Grant = Grant(tenant: string, principal: string, collection: string, document: Option<string>)

  /** The documents, each collection's default access list, and the grants. */
  datatype Store = Store(documents: seq<Doc>, defaults: map<(string, string), seq<string>>, grants: seq<Grant>)

  // ----- who may read -----

  function PrincipalsFor(principal: string): set<string> {
    {principal} + if "user:" <= principal then {principal[5..]} else {}
  }

  predicate Matches(g: Grant, principals: set<string>, document: string) {
    g.principal in principals && (g.document.None? || g.document.value == document)
  }

  function OnCollection(grants: seq<Grant>, collection: string): seq<Grant> {
    Filter(grants, (g: Grant) => g.collection == collection)
  }

  predicate Secured(defaultAcl: seq<string>, grants: seq<Grant>) { defaultAcl != [] || grants != [] }

  /** An unsecured collection is open to all; a secured one to its default list and to the
      holders of a grant on it or on the document. */
  predicate CanRead(principals: set<string>, collection: string, document: string, defaultAcl: seq<string>,
                    grants: seq<Grant>) {
    || !Secured(defaultAcl, OnCollection(grants, collection))
    || (exists p :: p in principals && p in defaultAcl)
    || (exists g :: g in grants && g.collection == collection && Matches(g, principals, document))
  }

  /** can_read_document. */
  method CanReadDocument(principals: set<string>, collection: string, document: string, defaultAcl: seq<string>,
                         grants: seq<Grant>)
    returns (readable: bool)
    ensures readable == CanRead(principals, collection, document, defaultAcl, grants)
  {
    var collectionGrants := OnCollection(grants, collection);
    FilterMembers(grants, (g: Grant) => g.collection == collection);
    if !Secured(defaultAcl, collectionGrants) { return true; }
    if exists p :: p in principals && p in defaultAcl { return true; }
    for i := 0 to |collectionGrants|
      invariant forall j :: 0 <= j < i ==> !Matches(collectionGrants[j], principals, document)
    {
      var grant := collectionGrants[i];
      assert grant in collectionGrants;
      if grant.principal !in principals { continue; }
      if grant.document.None? || grant.document.value == document { return true; }
    }
    forall g | g in grants && g.collection == collection ensures !Matches(g, principals, document) {
      assert g in collectionGrants;
    }
    return false;
  }

  /** A grant on a collection opens what it names to its holder, and closes the collection
      to everyone it had been open to only because nobody had secured it. */
  lemma GrantOpensAndCloses(principals: set<string>, collection: string, document: string, defaultAcl: seq<string>,
                            grants: seq<Grant>, g: Grant)
    requires g.collection == collection
    ensures CanRead(principals, collection, document, defaultAcl, grants + [g]) <==>
            || Matches(g, principals, document)
            || (CanRead(principals, collection, document, defaultAcl, grants)
                && Secured(defaultAcl, OnCollection(grants, collection)))
  {
    var more := grants + [g];
    FilterMembers(grants, (x: Grant) => x.collection == collection);
    FilterMembers(more, (x: Grant) => x.collection == collection);
    assert g in more && forall x :: x in grants ==> x in more;
    assert g in OnCollection(more, collection);
  }

  // ----- the rows of a listing -----

  predicate Allowed(s: Store, doc: Doc, principal: string) {
    var key := (doc.tenant, doc.collection);
    CanRead(PrincipalsFor(principal), doc.collection, doc.document,
            if key in s.defaults then s.defaults[key] else [],
            Filter(s.grants, (g: Grant) => g.tenant == doc.tenant))
  }

  /** The caller goes by this name: their principal, or what stands behind its "user:". */
  predicate GoesBy(principal: string, name: string) {
    name == principal || "user:" + name == principal
  }

  lemma NamesOfPrincipal(principal: string, name: string)
    ensures name in PrincipalsFor(principal) <==> GoesBy(principal, name)
  {
    if "user:" <= principal { assert principal == "user:" + principal[5..]; }
    if "user:" + name == principal { assert principal[5..] == name; }
  }

  /** A document is open to a caller exactly when nothing secures its collection for its own
      tenant, or the collection's default list for that tenant names the caller, or a grant of
      that tenant on that collection does, for this document or for all.  No other tenant's
      defaults or grants matter. */
  lemma AllowedIff(s: Store, doc: Doc, principal: string)
    ensures var key := (doc.tenant, doc.collection);
            Allowed(s, doc, principal) <==>
              || (&& (key in s.defaults ==> s.defaults[key] == [])
                  && !exists g :: g in s.grants && g.tenant == doc.tenant && g.collection == doc.collection)
              || (key in s.defaults && exists name :: name in s.defaults[key] && GoesBy(principal, name))
              || (exists g :: g in s.grants && g.tenant == doc.tenant && g.collection == doc.collection
                              && GoesBy(principal, g.principal)
                              && (g.document.None? || g.document.value == doc.document))
  {
    var grants := Filter(s.grants, (g: Grant) => g.tenant == doc.tenant);
    FilterMembers(s.grants, (g: Grant) => g.tenant == doc.tenant);
    FilterMembers(grants, (g: Grant) => g.collection == doc.collection);
    forall name { NamesOfPrincipal(principal, name); }
    if OnCollection(grants, doc.collection) != [] {
      assert OnCollection(grants, doc.collection)[0] in grants;
    }
    if g :| g in s.grants && g.tenant == doc.tenant && g.collection == doc.collection {
      assert g in OnCollection(grants, doc.collection);
    }
  }

  predicate Listed(s: Store, doc: Doc, tenant: string, principal: string, collection: Option<string>,
                   document: Option<string>) {
    && doc.tenant == tenant
    && (collection.None? || doc.collection == collection.value)
    && (document.None? || doc.document == document.value)
    && Allowed(s, doc, principal)
  }

  predicate RowLe(a: Doc, b: Doc) {
    PairLe((a.collection, a.document), (b.collection, b.document))
  }

  /** What a listing goes through: the readable documents it asks for, in order. */
  function Rows(s: Store, tenant: string, principal: string, collection: Option<string>,
                document: Option<string>): seq<Doc> {
    Sort(Filter(s.documents, (d: Doc) => Listed(s, d, tenant, principal, collection, document)), RowLe)
  }

  predicate Beyond(d: Doc, cursor: string) { StringLt(cursor, d.document) }

  /** The rows a cursor leaves; an empty cursor is none. */
  function Remaining(rows: seq<Doc>, cursor: string): seq<Doc> {
    if cursor == "" then rows else Filter(rows, (d: Doc) => Beyond(d, cursor))
  }

  datatype Page = Page(docs: seq<Doc>, next: Option<string>) | IndexError

  /** One page of what is left. */
  function CutPage(rest: seq<Doc>, limit: int): Page {
    var docs := Take(rest, limit);
    if |rest| <= limit then Page(docs, None)
    else if docs == [] then IndexError
    else Page(docs, Some(docs[|docs| - 1].document))
  }

  function PageOf(rows: seq<Doc>, limit: int, cursor: string): Page {
    CutPage(Remaining(rows, cursor), limit)
  }

  /** list_indexed_documents. */
  method ListIndexedDocuments(s: Store, tenant: string, principal: string, collection: Option<string>,
                              document: Option<string>,
                              limit: int, cursor: string) returns (page: Page)
    ensures page == PageOf(Rows(s, tenant, principal, collection, document), limit, cursor)
  {
    var rows := Filter(s.documents, (d: Doc) => Listed(s, d, tenant, principal, collection, document));
    rows := Sort(rows, RowLe);
    if cursor != "" {
      rows := Filter(rows, (d: Doc) => Beyond(d, cursor));
    }
    var docs := Take(rows, limit);
    if |rows| > limit {
      if docs == [] { return IndexError; }
      return Page(docs, Some(docs[|docs| - 1].document));
    }
    return Page(docs, None);
  }

  /** Rows are the documents asked for that the caller may read, each as often as stored. */
  lemma RowsAreReadable(s: Store, tenant: string, principal: string, collection: Option<string>,
                        document: Option<string>)
    ensures var rows := Rows(s, tenant, principal, collection, document);
            && (forall d: Doc :: multiset(rows)[d] ==
                  if && d.tenant == tenant && (collection.Some? ==> d.collection == collection.value)
                     && (document.Some? ==> d.document == document.value) && Allowed(s, d, principal)
                  then multiset(s.documents)[d] else 0)
            && (forall d :: d in rows <==> d in s.documents && Listed(s, d, tenant, principal, collection, document))
            && (forall i, j :: 0 <= i < j < |rows| ==>
                  if rows[i].collection == rows[j].collection then StringLe(rows[i].document, rows[j].document)
                  else StringLe(rows[i].collection, rows[j].collection))
            && (DistinctBy(s.documents, (d: Doc) => (d.tenant, d.collection, d.document)) ==>
                  DistinctBy(rows, (d: Doc) => (d.tenant, d.collection, d.document)))
  {
    var listed := (d: Doc) => Listed(s, d, tenant, principal, collection, document);
    SortKeepsElements(Filter(s.documents, listed), RowLe);
    forall d { FilterCounts(s.documents, listed, d); }
    FilterMembers(s.documents, listed);
    SortHasSameMembers(Filter(s.documents, listed), RowLe);
    RowLeIsPreorder();
    SortIsSorted(Filter(s.documents, listed), RowLe);
    if DistinctBy(s.documents, (d: Doc) => (d.tenant, d.collection, d.document)) {
      FilterDistinct(s.documents, listed, (d: Doc) => (d.tenant, d.collection, d.document));
      SortDistinct(Filter(s.documents, listed), RowLe, (d: Doc) => (d.tenant, d.collection, d.document));
    }
  }

  lemma RowLeIsPreorder()
    ensures TotalPreorder(RowLe)
  {
    PairLeIsTotalOrder();
    forall a, b, c | RowLe(a, b) && RowLe(b, c) ensures RowLe(a, c) {
      assert PairLe((a.collection, a.document), (c.collection, c.document));
    }
  }

  /** A page cannot be had exactly when there are rows but the limit cuts off all of them. */
  lemma PageRaisesIff(rows: seq<Doc>, limit: int, cursor: string)
    ensures PageOf(rows, limit, cursor).IndexError? <==>
            if limit < 0 then |Remaining(rows, cursor)| <= -limit else limit == 0 && Remaining(rows, cursor) != []
  {
  }
}
