/** The versioned answer cache of query/app/query_cache.py in its in-memory mode, and the
    event handler of query/app/event_subscriber.py that invalidates it.

    The cache never deletes: it numbers each (tenant, collection) scope and puts the
    number and a digest of the joined fields into the key.  The reference deletes and
    joins nothing: a lookup returns what was last stored for a request with the same
    fields, unless the scope has been bumped since. */
module QueryCaching {
  import opened KeyNames
  import opened Options
  import opened Sorting

  /** The fields of the request state that reach the key; a missing field reads as empty. */
  datatype Request = Request(
    tenant: string, collection: string, additional: seq<string>, document: string,
    version: string, query: string, session: string)

  function JoinWith(separator: char, items: seq<string>): string {
    if items == [] then ""
    else if |items| == 1 then items[0]
    else items[0] + [separator] + JoinWith(separator, items[1..])
  }

  function Extra(r: Request): string { JoinWith(',', Sort(r.additional, StringLe)) }

  /** The string that is digested: the session is in it only when history is taken into account. */
  function Joined(r: Request, historyAware: bool): string {
    r.tenant + "|" + (r.collection + "|" +
      (Extra(r) + "|" + (r.document + "|" + (r.version + "|" + Tail(r, historyAware)))))
  }

  function Tail(r: Request, historyAware: bool): string {
    if historyAware then r.query + "|" + r.session else r.query
  }

  type Scope = (string, string)

  function ScopeOf(r: Request): Scope { (r.tenant, r.collection) }

  /** The digest is that of the joined string; SHA-256 counts as injective, so the string stands for it. */
  datatype Key = Key(version: nat, digestOf: string)

  type Versions = map<Scope, nat>

  function VersionOf(versions: Versions, scope: Scope): nat {
    if scope in versions then versions[scope] else 0
  }

  function KeyOf(versions: Versions, r: Request, historyAware: bool): Key {
    Key(VersionOf(versions, ScopeOf(r)), Joined(r, historyAware))
  }

  datatype State<P> = State(entries: map<Key, P>, versions: Versions)

  function Lookup<P>(s: State<P>, r: Request, historyAware: bool): Option<P> {
    var key := KeyOf(s.versions, r, historyAware);
    if key in s.entries then Some(s.entries[key]) else None
  }

  datatype Op<P> = Store(request: Request, payload: P) | Bump(scope: Scope)

  function Apply<P>(s: State<P>, op: Op<P>, historyAware: bool): State<P> {
    match op
    case Store(r, x) => s.(entries := s.entries[KeyOf(s.versions, r, historyAware) := x])
    case Bump(scope) => s.(versions := s.versions[scope := VersionOf(s.versions, scope) + 1])
  }

  // ----- the process-wide cache -----

  /** What a domain event asks for: nothing here unless it reports new content of a named tenant. */
  datatype Event = Event(eventType: string, tenant: string, collection: string, cacheBump: bool)

  function BumpsOf<P>(e: Event): seq<Op<P>> {
    if (e.eventType == "ingest.completed" || e.eventType == "connector.sync") && e.tenant != "" && e.cacheBump
    then [Bump((e.tenant, e.collection))]
    else []
  }

  class QueryCache<P> {
    const enabled: bool
    const historyAware: bool
    var entries: map<Key, P>
    var versions: Versions
    ghost var history: seq<Op<P>>

    ghost predicate Valid()
      reads this
    {
      State(entries, versions) == Run(history, historyAware)
    }

    constructor (enabled: bool, historyAware: bool)
      ensures Valid() && history == []
      ensures this.enabled == enabled && this.historyAware == historyAware
    {
      this.enabled, this.historyAware := enabled, historyAware;
      entries, versions, history := map[], map[], [];
    }

    method GetCachedAnswer(r: Request) returns (answer: Option<P>)
      requires Valid()
      ensures answer == if enabled then Lookup(Run(history, historyAware), r, historyAware) else None
    {
      if !enabled { return None; }
      var key := KeyOf(versions, r, historyAware);
      answer := if key in entries then Some(entries[key]) else None;
    }

    method SetCachedAnswer(r: Request, payload: P)
      requires Valid()
      modifies this
      ensures Valid()
      ensures history == if enabled then old(history) + [Store(r, payload)] else old(history)
    {
      if !enabled { return; }
      var key := KeyOf(versions, r, historyAware);
      entries := entries[key := payload];
      RunSnoc(history, Store(r, payload), historyAware);
      history := history + [Store(r, payload)];
    }

    method BumpCacheVersion(tenant: string, collection: string) returns (version: nat)
      requires Valid()
      modifies this
      ensures Valid()
      ensures history == old(history) + [Bump((tenant, collection))]
      ensures version == VersionOf(versions, (tenant, collection)) == VersionOf(old(versions), (tenant, collection)) + 1
    {
      RunSnoc(history, Bump((tenant, collection)), historyAware);
      history := history + [Bump((tenant, collection))];
      versions := versions[(tenant, collection) := VersionOf(versions, (tenant, collection)) + 1];
      version := versions[(tenant, collection)];
    }

    /** handle_event, as far as it touches this cache. */
    method HandleEvent(e: Event)
      requires Valid()
      modifies this
      ensures Valid() && history == old(history) + BumpsOf(e)
    {
      if e.eventType == "ingest.completed" || e.eventType == "connector.sync" {
        if e.tenant != "" && e.cacheBump {
          var version := BumpCacheVersion(e.tenant, e.collection);
        }
      }
    }
  }

  // ----- runs -----

  function Run<P>(ops: seq<Op<P>>, historyAware: bool): State<P> {
    if ops == [] then State(map[], map[])
    else Apply(Run(ops[..|ops| - 1], historyAware), ops[|ops| - 1], historyAware)
  }

  lemma RunSnoc<P>(ops: seq<Op<P>>, op: Op<P>, historyAware: bool)
    ensures Run(ops + [op], historyAware) == Apply(Run(ops, historyAware), op, historyAware)
  {
    assert (ops + [op])[..|ops|] == ops;
  }

  /** Two requests ask the same: they differ at most in the order in which additional
      collections are listed and, when history is not taken into account, in the session. */
  ghost predicate Same(q: Request, r: Request, historyAware: bool) {
    && q.tenant == r.tenant && q.collection == r.collection && multiset(q.additional) == multiset(r.additional)
    && q.document == r.document && q.version == r.version && q.query == r.query
    && (historyAware ==> q.session == r.session)
  }

  /** The reference: what was last stored for the same request, if its scope has not been bumped since. */
  ghost function LastStored<P>(ops: seq<Op<P>>, r: Request, historyAware: bool): Option<P> {
    if ops == [] then None
    else
      var front := ops[..|ops| - 1];
      match ops[|ops| - 1]
      case Store(q, x) => if Same(q, r, historyAware) then Some(x) else LastStored(front, r, historyAware)
      case Bump(scope) => if scope == ScopeOf(r) then None else LastStored(front, r, historyAware)
  }

  /** The run stores only under the given requests. */
  predicate StoresWithin<P>(ops: seq<Op<P>>, known: set<Request>) {
    forall i :: 0 <= i < |ops| && ops[i].Store? ==> ops[i].request in known
  }

  /** No two of the requests join to the same string unless they ask the same. */
  ghost predicate JoinedApart(known: set<Request>, historyAware: bool) {
    forall q, r :: q in known && r in known && Joined(q, historyAware) == Joined(r, historyAware) ==>
      Same(q, r, historyAware)
  }

  /** The order in which additional collections are named does not reach the key. */
  lemma SameJoinsAlike(q: Request, r: Request, historyAware: bool)
    requires Same(q, r, historyAware)
    ensures Joined(q, historyAware) == Joined(r, historyAware) && ScopeOf(q) == ScopeOf(r)
  {
    StringLeIsTotalOrder();
    SortIsCanonical(q.additional, r.additional, StringLe);
  }

  lemma {:induction false} LookupIsLastStored<P>(ops: seq<Op<P>>, known: set<Request>, historyAware: bool, r: Request)
    requires JoinedApart(known, historyAware) && StoresWithin(ops, known) && r in known
    ensures Lookup(Run(ops, historyAware), r, historyAware) == LastStored(ops, r, historyAware)
    ensures forall key :: key in Run(ops, historyAware).entries && key.digestOf == Joined(r, historyAware) ==>
              key.version <= VersionOf(Run(ops, historyAware).versions, ScopeOf(r))
  {
    if ops != [] {
      var front, last := ops[..|ops| - 1], ops[|ops| - 1];
      assert StoresWithin(front, known);
      LookupIsLastStored(front, known, historyAware, r);
      if last.Store? {
        var q := ops[|ops| - 1].request;
        assert q in known;
        if Same(q, r, historyAware) {
          SameJoinsAlike(q, r, historyAware);
        } else {
          assert Joined(q, historyAware) != Joined(r, historyAware);
        }
      }
    }
  }

  ghost predicate Refines(known: set<Request>, historyAware: bool) {
    forall ops: seq<Op<int>>, r :: StoresWithin(ops, known) && r in known ==>
      Lookup(Run(ops, historyAware), r, historyAware) == LastStored(ops, r, historyAware)
  }

  /** The numbered cache answers every run over a set of requests as the deleting one does
      exactly when no two of the requests that ask for different things join to the same string. */
  lemma RefinesIffJoinedApart(known: set<Request>, historyAware: bool)
    ensures Refines(known, historyAware) <==> JoinedApart(known, historyAware)
  {
    if JoinedApart(known, historyAware) {
      forall ops: seq<Op<int>>, r | StoresWithin(ops, known) && r in known
        ensures Lookup(Run(ops, historyAware), r, historyAware) == LastStored(ops, r, historyAware)
      {
        LookupIsLastStored(ops, known, historyAware, r);
      }
    }
    if Refines(known, historyAware) {
      forall q, r | q in known && r in known && Joined(q, historyAware) == Joined(r, historyAware)
        ensures Same(q, r, historyAware)
      {
        var ops: seq<Op<int>> := [Store(q, 7)];
        assert StoresWithin(ops, known);
        StoredForOne(q, r, historyAware, 7);
        assert LastStored(ops[..0], r, historyAware) == None;
      }
    }
  }

  /** What is stored for one request is found for every request that joins to the same string. */
  lemma StoredForOne<P>(q: Request, r: Request, historyAware: bool, payload: P)
    requires Joined(q, historyAware) == Joined(r, historyAware)
    ensures Lookup(Run([Store(q, payload)], historyAware), r, historyAware) == Some(payload)
  {
    var ops := [Store(q, payload)];
    assert ops[..0] == [];
  }

  // ----- when joined strings tell requests apart -----

  lemma {:induction false} JoinedCharacters(separator: char, items: seq<string>, c: char)
    requires c != separator && forall i :: 0 <= i < |items| ==> c !in items[i]
    ensures c !in JoinWith(separator, items)
  {
    if |items| > 1 { JoinedCharacters(separator, items[1..], c); }
  }

  /** Lists of names without the separator join alike only when they are the same list, or
      when one is empty and the other names one empty collection. */
  lemma {:induction false} ListsJoinAlikeIff(separator: char, a: seq<string>, b: seq<string>)
    requires forall x :: x in a || x in b ==> separator !in x
    ensures JoinWith(separator, a) == JoinWith(separator, b) <==> a == b || (a in {[], [""]} && b in {[], [""]})
  {
    if |a| > 1 && |b| > 1 {
      var restA, restB := JoinWith(separator, a[1..]), JoinWith(separator, b[1..]);
      ListsJoinAlikeIff(separator, a[1..], b[1..]);
      if a[0] + [separator] + restA == b[0] + [separator] + restB {
        FirstFieldUnique(separator, a[0], restA, b[0], restB);
        assert a == [a[0]] + a[1..] && b == [b[0]] + b[1..];
      }
    } else if |a| > 1 {
      LongerHasSeparator(separator, a);
      assert b == [] || b[0] in b;
    } else if |b| > 1 {
      LongerHasSeparator(separator, b);
      assert a == [] || a[0] in a;
    } else {
      assert (a == [] || a == [a[0]]) && (b == [] || b == [b[0]]);
    }
  }

  lemma LongerHasSeparator(separator: char, items: seq<string>)
    requires |items| > 1
    ensures separator in JoinWith(separator, items)
  {
    assert JoinWith(separator, items)[|items[0]|] == separator;
  }

  /** No bar in any field that is joined but the query, no comma in an additional collection,
      and not a single additional collection without a name. */
  predicate Separable(r: Request, historyAware: bool) {
    && '|' !in r.tenant && '|' !in r.collection && '|' !in r.document && '|' !in r.version
    && (forall i :: 0 <= i < |r.additional| ==> '|' !in r.additional[i] && ',' !in r.additional[i])
    && r.additional != [""]
    && (historyAware ==> '|' !in r.session)
  }

  lemma SortedNames(r: Request, historyAware: bool)
    requires Separable(r, historyAware)
    ensures var names := Sort(r.additional, StringLe);
            '|' !in Extra(r) && names != [""] && forall x :: x in names ==> ',' !in x
  {
    var names := Sort(r.additional, StringLe);
    SortHasSameMembers(r.additional, StringLe);
    SortKeepsElements(r.additional, StringLe);
    forall i | 0 <= i < |names| ensures '|' !in names[i] && ',' !in names[i] { assert names[i] in r.additional; }
    JoinedCharacters(',', names, '|');
    if |names| == 1 { assert r.additional == [r.additional[0]] && r.additional[0] in names; }
  }

  /** Requests without separators, whatever the query says, join to different strings
      unless they ask the same. */
  lemma SeparableJoinApart(q: Request, r: Request, historyAware: bool)
    requires Separable(q, historyAware) && Separable(r, historyAware)
    requires Joined(q, historyAware) == Joined(r, historyAware)
    ensures Same(q, r, historyAware)
  {
    SortedNames(q, historyAware);
    SortedNames(r, historyAware);
    var q4, r4 := q.version + "|" + Tail(q, historyAware), r.version + "|" + Tail(r, historyAware);
    var q3, r3 := q.document + "|" + q4, r.document + "|" + r4;
    var q2, r2 := Extra(q) + "|" + q3, Extra(r) + "|" + r3;
    FirstFieldUnique('|', q.tenant, q.collection + "|" + q2, r.tenant, r.collection + "|" + r2);
    FirstFieldUnique('|', q.collection, q2, r.collection, r2);
    FirstFieldUnique('|', Extra(q), q3, Extra(r), r3);
    FirstFieldUnique('|', q.document, q4, r.document, r4);
    FirstFieldUnique('|', q.version, Tail(q, historyAware), r.version, Tail(r, historyAware));
    if historyAware { LastFieldUnique('|', q.query, q.session, r.query, r.session); }
    SameNames(q.additional, r.additional);
  }

  lemma SameNames(a: seq<string>, b: seq<string>)
    requires forall x :: x in Sort(a, StringLe) || x in Sort(b, StringLe) ==> ',' !in x
    requires Sort(a, StringLe) != [""] && Sort(b, StringLe) != [""]
    requires JoinWith(',', Sort(a, StringLe)) == JoinWith(',', Sort(b, StringLe))
    ensures multiset(a) == multiset(b)
  {
    ListsJoinAlikeIff(',', Sort(a, StringLe), Sort(b, StringLe));
    SortKeepsElements(a, StringLe);
    SortKeepsElements(b, StringLe);
  }

  /** On any run over separable requests of one deployment a lookup is never stale and never foreign. */
  lemma NeverStale<P>(ops: seq<Op<P>>, known: set<Request>, historyAware: bool, r: Request)
    requires forall q :: q in known ==> Separable(q, historyAware)
    requires StoresWithin(ops, known) && r in known
    ensures Lookup(Run(ops, historyAware), r, historyAware) == LastStored(ops, r, historyAware)
  {
    forall p, q | p in known && q in known && Joined(p, historyAware) == Joined(q, historyAware)
      ensures Same(p, q, historyAware)
    {
      SeparableJoinApart(p, q, historyAware);
    }
    LookupIsLastStored(ops, known, historyAware, r);
  }

  /** A bar inside a tenant name lets one tenant read another's answer. */
  lemma SeparatorConfusesTenants<P>(payload: P, historyAware: bool)
    ensures var q := Request("a", "b|c", [], "", "", "q", "");
            var r := Request("a|b", "c", [], "", "", "q", "");
            q.tenant != r.tenant && Lookup(Run([Store(q, payload)], historyAware), r, historyAware) == Some(payload)
  {
    var q := Request("a", "b|c", [], "", "", "q", "");
    var r := Request("a|b", "c", [], "", "", "q", "");
    assert q.tenant + "|" + q.collection == r.tenant + "|" + r.collection;
    JoinedSplit(q, historyAware);
    JoinedSplit(r, historyAware);
    StoredForOne(q, r, historyAware, payload);
  }

  lemma JoinedSplit(r: Request, historyAware: bool)
    ensures Joined(r, historyAware) == (r.tenant + "|" + r.collection) +
              ("|" + (Extra(r) + "|" + (r.document + "|" + (r.version + "|" + Tail(r, historyAware)))))
  {
  }

  /** A comma inside the name of an additional collection lets a search of two collections
      read the answer to a search of one. */
  lemma CommaConfusesCollections<P>(payload: P, historyAware: bool)
    ensures var q := Request("t", "c", ["a,b"], "", "", "q", "");
            var r := q.(additional := ["a", "b"]);
            !Same(q, r, historyAware) &&
            Lookup(Run([Store(q, payload)], historyAware), r, historyAware) == Some(payload)
  {
    var q := Request("t", "c", ["a,b"], "", "", "q", "");
    var r := q.(additional := ["a", "b"]);
    assert Sort(["b"], StringLe) == ["b"] by { assert ["b"][1..] == []; }
    assert Sort(r.additional, StringLe) == ["a", "b"] by { assert r.additional[1..] == ["b"]; }
    assert Sort(q.additional, StringLe) == ["a,b"] by { assert q.additional[1..] == []; }
    assert JoinWith(',', ["a", "b"]) == "a" + [','] + "b" by { assert ["a", "b"][1..] == ["b"]; }
    assert Extra(q) == Extra(r);
    StoredForOne(q, r, historyAware, payload);
    assert |multiset(q.additional)| != |multiset(r.additional)|;
  }

  // ----- invalidation events -----

  /** An event that reports new content of a named tenant, and does not opt out, clears the
      lookups of its tenant and collection; every other event, and every other lookup, is
      left as it was. */
  lemma EventClears<P>(ops: seq<Op<P>>, known: set<Request>, historyAware: bool, e: Event, r: Request)
    requires JoinedApart(known, historyAware) && StoresWithin(ops, known) && r in known
    ensures Lookup(Run(ops + BumpsOf(e), historyAware), r, historyAware) ==
            if && e.eventType in {"ingest.completed", "connector.sync"} && e.cacheBump
               && e.tenant != "" && e.tenant == r.tenant && e.collection == r.collection
            then None else Lookup(Run(ops, historyAware), r, historyAware)
  {
    if BumpsOf<P>(e) == [] {
      assert ops + BumpsOf(e) == ops;
    } else {
      var bumped := ops + BumpsOf(e);
      assert bumped[..|ops|] == ops && bumped[|ops|] == Bump((e.tenant, e.collection));
      LookupIsLastStored(ops, known, historyAware, r);
      LookupIsLastStored(bumped, known, historyAware, r);
    }
  }

  lemma StoresWithinBump<P>(before: seq<Op<P>>, scope: Scope, after: seq<Op<P>>, known: set<Request>)
    requires StoresWithin(before + after, known)
    ensures StoresWithin(before + [Bump(scope)] + after, known)
  {
    var ops := before + [Bump(scope)] + after;
    forall i | 0 <= i < |ops| && ops[i].Store? ensures ops[i].request in known {
      assert ops[i] == (before + after)[if i < |before| then i else i - 1];
    }
  }

  lemma {:induction false} BumpOnlyForgets<P>(before: seq<Op<P>>, scope: Scope, after: seq<Op<P>>, r: Request,
                                              historyAware: bool)
    ensures var once := LastStored(before + after, r, historyAware);
            var twice := LastStored(before + [Bump(scope)] + after, r, historyAware);
            twice == once || (scope == ScopeOf(r) && twice == None)
  {
    if after == [] {
      assert before + [Bump(scope)] + after == before + [Bump(scope)];
      assert (before + [Bump(scope)])[..|before|] == before;
      assert before + after == before;
    } else {
      var front, last := after[..|after| - 1], after[|after| - 1];
      BumpOnlyForgets(before, scope, front, r, historyAware);
      var once, twice := before + front, before + [Bump(scope)] + front;
      assert before + after == once + [last];
      assert before + [Bump(scope)] + after == twice + [last];
      assert (once + [last])[..|once|] == once && (twice + [last])[..|twice|] == twice;
    }
  }

  /** Redelivering an invalidation, at once or at any later point, never brings an old
      answer back: it can only turn a hit into a miss, and only in its own scope. */
  lemma RedeliveryOnlyForgets<P>(before: seq<Op<P>>, scope: Scope, after: seq<Op<P>>, known: set<Request>,
                                 historyAware: bool, r: Request)
    requires JoinedApart(known, historyAware) && StoresWithin(before + after, known) && r in known
    ensures var once := Lookup(Run(before + after, historyAware), r, historyAware);
            var twice := Lookup(Run(before + [Bump(scope)] + after, historyAware), r, historyAware);
            twice == once || (scope == ScopeOf(r) && twice == None)
  {
    StoresWithinBump(before, scope, after, known);
    LookupIsLastStored(before + after, known, historyAware, r);
    LookupIsLastStored(before + [Bump(scope)] + after, known, historyAware, r);
    BumpOnlyForgets(before, scope, after, r, historyAware);
  }

  /** A duplicate delivered straight after the first changes no lookup at all. */
  lemma DuplicateIsIdle<P>(before: seq<Op<P>>, scope: Scope, known: set<Request>, historyAware: bool, r: Request)
    requires JoinedApart(known, historyAware) && StoresWithin(before, known) && r in known
    ensures Lookup(Run(before + [Bump(scope), Bump(scope)], historyAware), r, historyAware) ==
            Lookup(Run(before + [Bump(scope)], historyAware), r, historyAware)
  {
    var once, twice := before + [Bump(scope)], before + [Bump(scope), Bump(scope)];
    assert twice[..|before| + 1] == once && once[..|before|] == before;
    LookupIsLastStored(once, known, historyAware, r);
    LookupIsLastStored(twice, known, historyAware, r);
  }

  /** A cached answer goes exactly with a bump of its primary collection: new content in a
      collection it merely searched as an additional one leaves it in place. */
  lemma BumpClearsOnlyPrimary<P>(ops: seq<Op<P>>, known: set<Request>, r: Request, historyAware: bool,
                                 collection: string)
    requires JoinedApart(known, historyAware) && StoresWithin(ops, known) && r in known
    ensures Lookup(Run(ops + [Bump((r.tenant, collection))], historyAware), r, historyAware) ==
            if collection == r.collection then None else Lookup(Run(ops, historyAware), r, historyAware)
  {
    var bumped := ops + [Bump((r.tenant, collection))];
    assert bumped[..|ops|] == ops;
    LookupIsLastStored(ops, known, historyAware, r);
    LookupIsLastStored(bumped, known, historyAware, r);
  }
}
