/** Merging research results of regional peers into the local one (query/app/federated_research.py). */
module FederatedMerge {
  import opened PythonLists
  import opened Options
  import opened Sorting

  datatype Source = Source(document: Option<string>, version: Option<string>, region: Option<string>, rest: string)

  /** An element of a sources list: a dictionary, or something that is not one. */
  datatype Entry = Dict(source: Source) | Other(value: string)

  type Key = (Option<string>, Option<string>)

  function KeyOf(s: Source): Key { (s.document, s.version) }

  function KeysOf(sources: seq<Source>): set<Key> {
    if sources == [] then {} else KeysOf(sources[..|sources| - 1]) + {KeyOf(sources[|sources| - 1])}
  }

  function EntryKeys(entries: seq<Entry>): set<Key> {
    if entries == [] then {}
    else
      var before, last := EntryKeys(entries[..|entries| - 1]), entries[|entries| - 1];
      if last.Dict? then before + {KeyOf(last.source)} else before
  }

  datatype Peer = Peer(region: string, answer: string, sources: seq<Entry>)

  datatype Research = Research(answer: string, sources: seq<Entry>, regions: seq<string>)

  // ----- sources -----

  function Tag(s: Source, region: string): Source {
    s.(region := Some(if region != "" then region else "peer"))
  }

  /** What a peer offers: its dictionaries, marked with its region. */
  function OffersOf(entries: seq<Entry>, region: string): seq<Source> {
    if entries == [] then []
    else OffersOf(entries[..|entries| - 1], region) + Offer(entries[|entries| - 1], region)
  }

  function Offer(entry: Entry, region: string): seq<Source> {
    if entry.Dict? then [Tag(entry.source, region)] else []
  }

  function Offers(peers: seq<Peer>): seq<Source> {
    if peers == [] then []
    else Offers(peers[..|peers| - 1]) + OffersOf(peers[|peers| - 1].sources, peers[|peers| - 1].region)
  }

  /** The offers taken up one after another, each when its key has not been seen yet. */
  function Added(seen: set<Key>, offers: seq<Source>): seq<Source> {
    if offers == [] then []
    else
      var before, last := Added(seen, offers[..|offers| - 1]), offers[|offers| - 1];
      if KeyOf(last) in seen + KeysOf(before) then before else before + [last]
  }

  function Dicts(sources: seq<Source>): (entries: seq<Entry>)
    ensures |entries| == |sources|
    ensures forall i :: 0 <= i < |sources| ==> entries[i] == Dict(sources[i])
  {
    seq(|sources|, i requires 0 <= i < |sources| => Dict(sources[i]))
  }

  function MergedSources(local: seq<Entry>, peers: seq<Peer>): seq<Entry> {
    local + Dicts(Added(EntryKeys(local), Offers(peers)))
  }

  // ----- answer and regions -----

  /** The first answer the home region gave. */
  function HomeAnswer(peers: seq<Peer>, home: string): Option<string> {
    if peers == [] then None
    else if peers[0].region == home && peers[0].answer != "" then Some(peers[0].answer)
    else HomeAnswer(peers[1..], home)
  }

  function AnswerOf(local: string, peers: seq<Peer>, home: string, localRegion: string): string {
    if home == "" || home == localRegion || HomeAnswer(peers, home).None? then local else HomeAnswer(peers, home).value
  }

  function RegionsOf(peers: seq<Peer>): seq<string> {
    if peers == [] then []
    else RegionsOf(peers[..|peers| - 1]) + if peers[|peers| - 1].region != "" then [peers[|peers| - 1].region] else []
  }

  function Merge(local: Research, peers: seq<Peer>, home: string, localRegion: string): Research {
    Research(AnswerOf(local.answer, peers, home, localRegion),
             MergedSources(local.sources, peers),
             [localRegion] + RegionsOf(peers))
  }

  lemma AddedNext(seen: set<Key>, offers: seq<Source>, s: Source)
    ensures var added := Added(seen, offers);
            if KeyOf(s) in seen + KeysOf(added) then Added(seen, offers + [s]) == added
            else Added(seen, offers + [s]) == added + [s] && KeysOf(added + [s]) == KeysOf(added) + {KeyOf(s)}
  {
    assert (offers + [s])[..|offers|] == offers;
    KeysOfNext(Added(seen, offers), s);
  }

  lemma KeysOfNext(sources: seq<Source>, s: Source)
    ensures KeysOf(sources + [s]) == KeysOf(sources) + {KeyOf(s)}
  {
    assert (sources + [s])[..|sources|] == sources;
  }

  lemma {:induction false} KeysOfMeans(sources: seq<Source>, key: Key)
    ensures key in KeysOf(sources) <==> exists i :: 0 <= i < |sources| && KeyOf(sources[i]) == key
  {
    if sources != [] {
      var front := sources[..|sources| - 1];
      KeysOfMeans(front, key);
      assert forall i :: 0 <= i < |front| ==> front[i] == sources[i];
    }
  }

  lemma {:induction false} EntryKeysMeans(entries: seq<Entry>, key: Key)
    ensures key in EntryKeys(entries) <==>
            exists i :: 0 <= i < |entries| && entries[i].Dict? && KeyOf(entries[i].source) == key
  {
    if entries != [] {
      var front := entries[..|entries| - 1];
      EntryKeysMeans(front, key);
      assert forall i :: 0 <= i < |front| ==> front[i] == entries[i];
    }
  }

  lemma OffersNext(offers: seq<Source>, entries: seq<Entry>, i: nat, region: string)
    requires i < |entries|
    ensures offers + OffersOf(entries[..i], region) + Offer(entries[i], region) ==
            offers + OffersOf(entries[..i + 1], region)
  {
    assert entries[..i + 1][..i] == entries[..i];
  }

  /** One element of a peer's list: skipped, dropped as seen, or added with the peer's region. */
  method TakeUpOne(added: seq<Source>, seen: set<Key>, entry: Entry, region: string, ghost local: set<Key>,
                   ghost offers: seq<Source>)
    returns (added': seq<Source>, seen': set<Key>)
    requires added == Added(local, offers) && seen == local + KeysOf(added)
    ensures added' == Added(local, offers + Offer(entry, region)) && seen' == local + KeysOf(added')
  {
    added', seen' := added, seen;
    assert offers + [] == offers;
    if entry.Dict? {
      var tagged := Tag(entry.source, region);
      AddedNext(local, offers, tagged);
      if KeyOf(tagged) !in seen {
        added', seen' := added + [tagged], seen + {KeyOf(tagged)};
      }
    }
  }

  /** The sources of one peer taken up: `added` follows the local list. */
  method TakeUp(added: seq<Source>, seen: set<Key>, peer: Peer, ghost local: set<Key>, ghost offers: seq<Source>)
    returns (added': seq<Source>, seen': set<Key>)
    requires added == Added(local, offers) && seen == local + KeysOf(added)
    ensures added' == Added(local, offers + OffersOf(peer.sources, peer.region)) && seen' == local + KeysOf(added')
  {
    added', seen' := added, seen;
    ghost var all := offers;
    assert offers + [] == offers;
    for i := 0 to |peer.sources|
      invariant all == offers + OffersOf(peer.sources[..i], peer.region)
      invariant added' == Added(local, all) && seen' == local + KeysOf(added')
    {
      OffersNext(offers, peer.sources, i, peer.region);
      added', seen' := TakeUpOne(added', seen', peer.sources[i], peer.region, local, all);
      all := offers + OffersOf(peer.sources[..i + 1], peer.region);
    }
    assert peer.sources[..|peer.sources|] == peer.sources;
  }

  /** merge_research_results. */
  method MergeResearchResults(local: Research, peers: seq<Peer>, home: string, localRegion: string)
    returns (merged: Research)
    ensures merged == Merge(local, peers, home, localRegion)
  {
    var added: seq<Source> := [];
    var seen := EntryKeys(local.sources);
    for i := 0 to |peers|
      invariant added == Added(EntryKeys(local.sources), Offers(peers[..i]))
      invariant seen == EntryKeys(local.sources) + KeysOf(added)
    {
      added, seen := TakeUp(added, seen, peers[i], EntryKeys(local.sources), Offers(peers[..i]));
      assert peers[..i + 1][..i] == peers[..i];
    }
    assert peers[..|peers|] == peers;
    var answer := local.answer;
    if home != "" && home != localRegion {
      answer := FindHomeAnswer(peers, home, answer);
    }
    merged := Research(answer, local.sources + Dicts(added), [localRegion] + RegionsOf(peers));
  }

  method FindHomeAnswer(peers: seq<Peer>, home: string, local: string) returns (answer: string)
    ensures answer == if HomeAnswer(peers, home).Some? then HomeAnswer(peers, home).value else local
  {
    answer := local;
    for i := 0 to |peers|
      invariant answer == local && HomeAnswer(peers, home) == HomeAnswer(peers[i..], home)
    {
      assert peers[i..][1..] == peers[i + 1..];
      if peers[i].region == home && peers[i].answer != "" { return peers[i].answer; }
    }
  }

  // ----- what merging sources means -----

  /** The source is the first offered with its key. */
  ghost predicate FirstOffer(offers: seq<Source>, s: Source) {
    exists i :: 0 <= i < |offers| && offers[i] == s && forall j :: 0 <= j < i ==> KeyOf(offers[j]) != KeyOf(s)
  }

  /** What is added are the offered keys that had not been seen. */
  lemma {:induction false} AddedKeys(seen: set<Key>, offers: seq<Source>)
    ensures KeysOf(Added(seen, offers)) == KeysOf(offers) - seen
  {
    if offers != [] {
      var front, last := offers[..|offers| - 1], offers[|offers| - 1];
      AddedKeys(seen, front);
      KeysOfNext(Added(seen, front), last);
    }
  }

  /** Each added key is added once. */
  lemma {:induction false} AddedOnce(seen: set<Key>, offers: seq<Source>)
    ensures |Added(seen, offers)| == |KeysOf(Added(seen, offers))|
    ensures DistinctBy(Added(seen, offers), KeyOf)
  {
    if offers != [] {
      var front, last := offers[..|offers| - 1], offers[|offers| - 1];
      AddedOnce(seen, front);
      var before := Added(seen, front);
      KeysOfNext(before, last);
      if KeyOf(last) !in seen + KeysOf(before) {
        KeysOfMeans(before, KeyOf(last));
      }
    }
  }

  /** Of several offers with the same key the first is taken. */
  lemma {:induction false} AddedAreFirst(seen: set<Key>, offers: seq<Source>, s: Source)
    requires s in Added(seen, offers)
    ensures FirstOffer(offers, s)
  {
    var front, last := offers[..|offers| - 1], offers[|offers| - 1];
    if s in Added(seen, front) {
      AddedAreFirst(seen, front, s);
      var i :| 0 <= i < |front| && front[i] == s && forall j :: 0 <= j < i ==> KeyOf(front[j]) != KeyOf(s);
      FirstOfferAt(front, offers, i);
    } else {
      AddedKeys(seen, front);
      KeysOfMeans(front, KeyOf(last));
      FirstOfferAt(front, offers, |front|);
    }
  }

  lemma FirstOfferAt(front: seq<Source>, offers: seq<Source>, i: nat)
    requires front <= offers && i <= |front| && i < |offers|
    requires forall j :: 0 <= j < i ==> KeyOf(front[j]) != KeyOf(offers[i])
    ensures FirstOffer(offers, offers[i])
  {
    assert forall j :: 0 <= j < i ==> front[j] == offers[j];
  }

  lemma {:induction false} EntryKeysAppend(entries: seq<Entry>, sources: seq<Source>)
    ensures EntryKeys(entries + Dicts(sources)) == EntryKeys(entries) + KeysOf(sources)
  {
    if sources == [] {
      assert entries + Dicts(sources) == entries;
    } else {
      var front, last := sources[..|sources| - 1], sources[|sources| - 1];
      var all := entries + Dicts(front);
      EntryKeysAppend(entries, front);
      assert entries + Dicts(sources) == all + [Dict(last)];
      assert (all + [Dict(last)])[..|all|] == all;
    }
  }

  /** Merging keeps the local list in front and adds one source for each offered key that is
      not there locally. */
  lemma MergeMeans(local: seq<Entry>, peers: seq<Peer>)
    ensures var merged := MergedSources(local, peers);
            && local <= merged
            && |merged| == |local| + |KeysOf(Offers(peers)) - EntryKeys(local)|
            && EntryKeys(merged) == EntryKeys(local) + KeysOf(Offers(peers))
  {
    AddedKeys(EntryKeys(local), Offers(peers));
    AddedOnce(EntryKeys(local), Offers(peers));
    EntryKeysAppend(local, Added(EntryKeys(local), Offers(peers)));
  }

  /** What stands behind the local list is new there, and is the first source offered with its key. */
  lemma AddedMeans(local: seq<Entry>, peers: seq<Peer>, i: nat)
    requires |local| <= i < |MergedSources(local, peers)|
    ensures var e := MergedSources(local, peers)[i];
            e.Dict? && KeyOf(e.source) !in EntryKeys(local) && FirstOffer(Offers(peers), e.source)
  {
    var seen := EntryKeys(local);
    var added := Added(seen, Offers(peers));
    var s := added[i - |local|];
    assert s in added;
    AddedAreFirst(seen, Offers(peers), s);
    KeysOfMeans(added, KeyOf(s));
    AddedKeys(seen, Offers(peers));
  }

  /** No two entries behind the local list share a key. */
  lemma AddedKeysDiffer(local: seq<Entry>, peers: seq<Peer>, i: nat, j: nat)
    requires |local| <= i < j < |MergedSources(local, peers)|
    ensures var merged := MergedSources(local, peers);
            merged[i].Dict? && merged[j].Dict? && KeyOf(merged[i].source) != KeyOf(merged[j].source)
  {
    AddedOnce(EntryKeys(local), Offers(peers));
  }

  /** Merging the same peers again, or any of them in any order, adds no source. */
  lemma MergeIsIdempotent(local: seq<Entry>, peers: seq<Peer>, again: seq<Peer>)
    requires forall p :: p in again ==> p in peers
    ensures MergedSources(MergedSources(local, peers), again) == MergedSources(local, peers)
  {
    var merged := MergedSources(local, peers);
    MergeMeans(local, peers);
    MergeMeans(merged, again);
    forall key | key in KeysOf(Offers(again)) ensures key in KeysOf(Offers(peers)) {
      KeysOfMeans(Offers(again), key);
      var s :| s in Offers(again) && KeyOf(s) == key;
      var p := OfferedBy(again, s);
      OfferIsThere(peers, p, s);
      KeysOfMeans(Offers(peers), key);
    }
    assert KeysOf(Offers(again)) - EntryKeys(merged) == {};
  }

  lemma {:induction false} OfferedBy(peers: seq<Peer>, s: Source) returns (p: Peer)
    requires s in Offers(peers)
    ensures p in peers && s in OffersOf(p.sources, p.region)
  {
    var front, last := peers[..|peers| - 1], peers[|peers| - 1];
    if s in Offers(front) { p := OfferedBy(front, s); } else { p := last; }
  }

  lemma {:induction false} OfferIsThere(peers: seq<Peer>, p: Peer, s: Source)
    requires p in peers && s in OffersOf(p.sources, p.region)
    ensures s in Offers(peers)
  {
    var front, last := peers[..|peers| - 1], peers[|peers| - 1];
    assert peers == front + [last];
    if p in front { OfferIsThere(front, p, s); }
  }

  // ----- the order of peers -----

  /** The configured peers: region and address. */
  type Endpoint = (string, string)

  predicate IsHome(e: Endpoint, home: string) { home != "" && e.0 == home }

  function HomeFirst(home: string): (Endpoint, Endpoint) -> bool {
    (a: Endpoint, b: Endpoint) => IsHome(a, home) || !IsHome(b, home)
  }

  function PeerOrder(endpoints: seq<Endpoint>, home: string): seq<Endpoint> {
    Sort(endpoints, HomeFirst(home))
  }

  /** The results fetched from the peers other than this region, in order. */
  function Responses(order: seq<Endpoint>, localRegion: string, fetch: string -> Option<Peer>): seq<Peer> {
    if order == [] then []
    else
      var before, e := Responses(order[..|order| - 1], localRegion, fetch), order[|order| - 1];
      if e.0 == localRegion || fetch(e.1).None? then before else before + [fetch(e.1).value.(region := e.0)]
  }

  function Federate(local: Research, enabled: bool, endpoints: seq<Endpoint>, home: string, localRegion: string,
                    fetch: string -> Option<Peer>): Research {
    var peers := Responses(PeerOrder(endpoints, home), localRegion, fetch);
    if enabled && peers != [] then Merge(local, peers, home, localRegion) else local
  }

  /** merge_federated_research. */
  method MergeFederated(local: Research, enabled: bool, endpoints: seq<Endpoint>, home: string, localRegion: string,
                        fetch: string -> Option<Peer>) returns (merged: Research)
    ensures merged == Federate(local, enabled, endpoints, home, localRegion, fetch)
  {
    var order := PeerOrder(endpoints, home);
    if !enabled || endpoints == [] { return local; }
    var results: seq<Peer> := [];
    for i := 0 to |order|
      invariant results == Responses(order[..i], localRegion, fetch)
    {
      assert order[..i + 1][..i] == order[..i];
      if order[i].0 == localRegion { continue; }
      var result := fetch(order[i].1);
      if result.Some? {
        results := results + [result.value.(region := order[i].0)];
      }
    }
    assert order[..|order|] == order;
    if results == [] { return local; }
    merged := MergeResearchResults(local, results, home, localRegion);
  }

  lemma HomeStandsFirst(endpoints: seq<Endpoint>, home: string, e: Endpoint)
    requires e in endpoints && IsHome(e, home)
    ensures PeerOrder(endpoints, home) != [] && IsHome(PeerOrder(endpoints, home)[0], home)
  {
    var le := HomeFirst(home);
    SortIsSorted(endpoints, le);
    SortKeepsElements(endpoints, le);
    var order := PeerOrder(endpoints, home);
    assert e in multiset(order);
    var i :| 0 <= i < |order| && order[i] == e;
    if i > 0 { assert le(order[0], order[i]); }
  }

  lemma {:induction false} FirstResponse(order: seq<Endpoint>, localRegion: string, fetch: string -> Option<Peer>)
    requires order != [] && order[0].0 != localRegion && fetch(order[0].1).Some?
    ensures var peers := Responses(order, localRegion, fetch);
            peers != [] && peers[0] == fetch(order[0].1).value.(region := order[0].0)
  {
    if |order| > 1 {
      FirstResponse(order[..|order| - 1], localRegion, fetch);
    } else {
      assert order[..0] == [];
    }
  }

  /** The first source with a key in a peer's list. */
  function FirstWith(entries: seq<Entry>, key: Key): Option<Source> {
    if entries == [] then None
    else
      var before, last := FirstWith(entries[..|entries| - 1], key), entries[|entries| - 1];
      if before.None? && last.Dict? && KeyOf(last.source) == key then Some(last.source) else before
  }

  /** Marked with its region it is the first such offer of the peer. */
  lemma {:induction false} FirstWithIsFirst(entries: seq<Entry>, region: string, key: Key) returns (i: nat)
    ensures var offers, first := OffersOf(entries, region), FirstWith(entries, key);
            && (forall j :: 0 <= j < |offers| && j < i ==> KeyOf(offers[j]) != key)
            && (first.None? ==> i == |offers|)
            && (first.Some? ==> i < |offers| && KeyOf(first.value) == key && offers[i] == Tag(first.value, region))
  {
    i := 0;
    if entries != [] {
      i := FirstWithIsFirst(entries[..|entries| - 1], region, key);
      var before, last := OffersOf(entries[..|entries| - 1], region), entries[|entries| - 1];
      if FirstWith(entries, key).None? { i := |OffersOf(entries, region)|; }
      assert forall j :: 0 <= j < |before| ==> OffersOf(entries, region)[j] == before[j];
    }
  }

  lemma {:induction false} FirstWithFinds(entries: seq<Entry>, s: Source)
    requires Dict(s) in entries
    ensures FirstWith(entries, KeyOf(s)).Some?
  {
    var front, last := entries[..|entries| - 1], entries[|entries| - 1];
    assert entries == front + [last];
    if Dict(s) in front { FirstWithFinds(front, s); }
  }

  lemma {:induction false} FirstPeerOffersFirst(peers: seq<Peer>)
    requires peers != []
    ensures OffersOf(peers[0].sources, peers[0].region) <= Offers(peers)
  {
    if |peers| > 1 {
      FirstPeerOffersFirst(peers[..|peers| - 1]);
    } else {
      assert Offers(peers[..0]) == [];
    }
  }

  lemma OrderMembers(endpoints: seq<Endpoint>, home: string)
    ensures forall e :: e in PeerOrder(endpoints, home) ==> e in endpoints
  {
    var le := HomeFirst(home);
    SortKeepsElements(endpoints, le);
    forall e | e in PeerOrder(endpoints, home) ensures e in endpoints {
      assert e in multiset(PeerOrder(endpoints, home));
    }
  }

  /** A key that is not there locally and that the first peer offers is merged in the first
      copy that peer has of it. */
  lemma FirstPeerWins(local: seq<Entry>, peers: seq<Peer>, s: Source)
    requires peers != [] && Dict(s) in peers[0].sources && KeyOf(s) !in EntryKeys(local)
    ensures FirstWith(peers[0].sources, KeyOf(s)).Some?
    ensures KeyOf(s) in EntryKeys(MergedSources(local, peers))
    ensures forall t :: Dict(t) in MergedSources(local, peers) && KeyOf(t) == KeyOf(s) ==>
              t == Tag(FirstWith(peers[0].sources, KeyOf(s)).value, peers[0].region)
  {
    var merged, offers, key := MergedSources(local, peers), Offers(peers), KeyOf(s);
    FirstPeerOffersFirst(peers);
    FirstWithFinds(peers[0].sources, s);
    var k := FirstWithIsFirst(peers[0].sources, peers[0].region, key);
    var firsts := OffersOf(peers[0].sources, peers[0].region);
    assert forall j :: 0 <= j < |firsts| ==> offers[j] == firsts[j];
    KeysOfMeans(offers, key);
    MergeMeans(local, peers);
    forall t | Dict(t) in merged && KeyOf(t) == key ensures t == offers[k] {
      MergedIsFirstOffer(local, peers, t);
      FirstOfferUnique(offers, t, k);
    }
  }

  lemma FirstOfferUnique(offers: seq<Source>, t: Source, k: nat)
    requires FirstOffer(offers, t) && k < |offers| && KeyOf(offers[k]) == KeyOf(t)
    requires forall j :: 0 <= j < k ==> KeyOf(offers[j]) != KeyOf(t)
    ensures t == offers[k]
  {
    var j :| 0 <= j < |offers| && offers[j] == t && forall l :: 0 <= l < j ==> KeyOf(offers[l]) != KeyOf(t);
    assert j == k;
  }

  lemma MergedIsFirstOffer(local: seq<Entry>, peers: seq<Peer>, t: Source)
    requires Dict(t) in MergedSources(local, peers) && KeyOf(t) !in EntryKeys(local)
    ensures FirstOffer(Offers(peers), t)
  {
    var merged := MergedSources(local, peers);
    var i :| 0 <= i < |merged| && merged[i] == Dict(t);
    assert i < |local| ==> local[i] == merged[i];
    EntryKeysMeans(local, KeyOf(t));
    AddedMeans(local, peers, i);
  }

  /** The home region, when it answers, is the first response. */
  lemma HomeRespondsFirst(endpoints: seq<Endpoint>, home: string, localRegion: string, fetch: string -> Option<Peer>,
                          url: string)
    requires (home, url) in endpoints && home != "" && home != localRegion
    requires forall e :: e in endpoints && e.0 == home ==> e.1 == url
    requires fetch(url).Some?
    ensures var peers := Responses(PeerOrder(endpoints, home), localRegion, fetch);
            peers != [] && peers[0] == fetch(url).value.(region := home)
  {
    var order := PeerOrder(endpoints, home);
    HomeStandsFirst(endpoints, home, (home, url));
    OrderMembers(endpoints, home);
    assert order[0] in endpoints && order[0] == (home, url);
    FirstResponse(order, localRegion, fetch);
  }

  /** Whatever other peers offer and in whatever order they are configured, a source the
      home region has and the local result lacks is merged in the first copy the home region
      has, and the home region's answer, when it gives one, is the answer. */
  lemma HomeCopyWins(local: Research, endpoints: seq<Endpoint>, home: string, localRegion: string,
                     fetch: string -> Option<Peer>,
                     url: string, s: Source)
    requires (home, url) in endpoints && home != "" && home != localRegion
    requires forall e :: e in endpoints && e.0 == home ==> e.1 == url
    requires fetch(url).Some? && Dict(s) in fetch(url).value.sources && KeyOf(s) !in EntryKeys(local.sources)
    ensures var merged := Merge(local, Responses(PeerOrder(endpoints, home), localRegion, fetch), home, localRegion);
            && KeyOf(s) in EntryKeys(merged.sources)
            && FirstWith(fetch(url).value.sources, KeyOf(s)).Some?
            && (forall t :: Dict(t) in merged.sources && KeyOf(t) == KeyOf(s) ==>
                  t == Tag(FirstWith(fetch(url).value.sources, KeyOf(s)).value, home))
            && (fetch(url).value.answer != "" ==> merged.answer == fetch(url).value.answer)
  {
    HomeRespondsFirst(endpoints, home, localRegion, fetch, url);
    FirstPeerWins(local.sources, Responses(PeerOrder(endpoints, home), localRegion, fetch), s);
  }

  // ----- what a federated result holds -----

  /** The peers asked that answer: those configured for the home region first, then the others
      as they are configured; this region is not asked. */
  function Answering(endpoints: seq<Endpoint>, home: string, localRegion: string, fetch: string -> Option<Peer>)
    : seq<Endpoint>
  {
    Filter(Filter(endpoints, (e: Endpoint) => home != "" && e.0 == home)
           + Filter(endpoints, (e: Endpoint) => !(home != "" && e.0 == home)),
           (e: Endpoint) => e.0 != localRegion && fetch(e.1).Some?)
  }

  function RegionNames(answering: seq<Endpoint>): (names: seq<string>)
    ensures |names| == |answering|
    ensures forall i :: 0 <= i < |names| ==> names[i] == answering[i].0
  {
    seq(|answering|, i requires 0 <= i < |answering| => answering[i].0)
  }

  function Replies(answering: seq<Endpoint>, fetch: string -> Option<Peer>): (peers: seq<Peer>)
    requires forall i :: 0 <= i < |answering| ==> fetch(answering[i].1).Some?
    ensures |peers| == |answering|
    ensures forall i :: 0 <= i < |peers| ==> peers[i] == fetch(answering[i].1).value.(region := answering[i].0)
  {
    seq(|answering|, i requires 0 <= i < |answering| => fetch(answering[i].1).value.(region := answering[i].0))
  }

  lemma {:induction false} ResponsesAreReplies(order: seq<Endpoint>, localRegion: string, fetch: string -> Option<Peer>)
    ensures var answering := Filter(order, (e: Endpoint) => e.0 != localRegion && fetch(e.1).Some?);
            (forall i :: 0 <= i < |answering| ==> fetch(answering[i].1).Some?)
            && Responses(order, localRegion, fetch) == Replies(answering, fetch)
  {
    if order != [] { ResponsesAreReplies(order[..|order| - 1], localRegion, fetch); }
  }

  lemma {:induction false} InsertBehind(e: Endpoint, homes: seq<Endpoint>, others: seq<Endpoint>, home: string)
    requires forall x :: x in homes ==> IsHome(x, home)
    requires forall x :: x in others ==> !IsHome(x, home)
    requires !IsHome(e, home)
    ensures Insert(e, homes + others, HomeFirst(home)) == homes + ([e] + others)
  {
    if homes == [] {
      assert homes + others == others;
      assert others != [] ==> others[0] in others;
    } else {
      assert homes[0] in homes && forall x :: x in homes[1..] ==> x in homes;
      InsertBehind(e, homes[1..], others, home);
      assert (homes + others)[1..] == homes[1..] + others;
      assert homes == [homes[0]] + homes[1..];
    }
  }

  lemma InsertHomeFirst(e: Endpoint, homes: seq<Endpoint>, others: seq<Endpoint>, home: string)
    requires forall x :: x in homes ==> IsHome(x, home)
    requires forall x :: x in others ==> !IsHome(x, home)
    ensures Insert(e, homes + others, HomeFirst(home)) ==
            if IsHome(e, home) then ([e] + homes) + others else homes + ([e] + others)
  {
    if IsHome(e, home) {
      assert [e] + (homes + others) == ([e] + homes) + others;
    } else {
      InsertBehind(e, homes, others, home);
    }
  }

  lemma {:induction false} OrderIsHomeFirst(endpoints: seq<Endpoint>, home: string)
    ensures PeerOrder(endpoints, home) ==
            Filter(endpoints, (e: Endpoint) => home != "" && e.0 == home)
            + Filter(endpoints, (e: Endpoint) => !(home != "" && e.0 == home))
  {
    if endpoints != [] {
      var e, rest := endpoints[0], endpoints[1..];
      var mine, others := (e: Endpoint) => home != "" && e.0 == home, (e: Endpoint) => !(home != "" && e.0 == home);
      OrderIsHomeFirst(rest, home);
      FilterFirst(e, rest, mine);
      FilterFirst(e, rest, others);
      FilterMembers(rest, mine);
      FilterMembers(rest, others);
      assert endpoints == [e] + rest;
      InsertHomeFirst(e, Filter(rest, mine), Filter(rest, others), home);
    }
  }

  lemma FilterFirst<T>(x: T, xs: seq<T>, keep: T -> bool)
    ensures Filter([x] + xs, keep) == if keep(x) then [x] + Filter(xs, keep) else Filter(xs, keep)
  {
    FilterAppend([x], xs, keep);
    assert [x][..0] == [] && Filter([x][..0], keep) == [];
  }

  /** The peers merged are the replies of those that answer, each under its configured region. */
  lemma FederatesReplies(local: Research, endpoints: seq<Endpoint>, home: string, localRegion: string,
                         fetch: string -> Option<Peer>)
    ensures var answering := Answering(endpoints, home, localRegion, fetch);
            && (forall i :: 0 <= i < |answering| ==> fetch(answering[i].1).Some?)
            && Federate(local, true, endpoints, home, localRegion, fetch) ==
                 if answering == [] then local else Merge(local, Replies(answering, fetch), home, localRegion)
  {
    OrderIsHomeFirst(endpoints, home);
    ResponsesAreReplies(PeerOrder(endpoints, home), localRegion, fetch);
  }

  /** Some dictionary of the list is of this document and version. */
  ghost predicate Cites(entries: seq<Entry>, document: Option<string>, version: Option<string>) {
    exists s :: Dict(s) in entries && s.document == document && s.version == version
  }

  lemma CitesByKey(entries: seq<Entry>, document: Option<string>, version: Option<string>)
    ensures Cites(entries, document, version) <==> (document, version) in EntryKeys(entries)
  {
    EntryKeysMeans(entries, (document, version));
    if s :| Dict(s) in entries && s.document == document && s.version == version {
      var i :| 0 <= i < |entries| && entries[i] == Dict(s);
      assert KeyOf(entries[i].source) == (document, version);
    }
    if i :| 0 <= i < |entries| && entries[i].Dict? && KeyOf(entries[i].source) == (document, version) {
      assert Dict(entries[i].source) in entries;
    }
  }

  lemma {:induction false} OffersOfAre(entries: seq<Entry>, region: string)
    ensures forall t :: t in OffersOf(entries, region) <==>
              exists s :: Dict(s) in entries && t == s.(region := Some(if region != "" then region else "peer"))
  {
    if entries != [] {
      var front, last := entries[..|entries| - 1], entries[|entries| - 1];
      OffersOfAre(front, region);
      forall t ensures t in OffersOf(entries, region) <==>
        exists s :: Dict(s) in entries && t == s.(region := Some(if region != "" then region else "peer"))
      {
        assert forall s :: Dict(s) in entries <==> Dict(s) in front || Dict(s) == last;
      }
    }
  }

  lemma OfferedIff(peers: seq<Peer>, key: Key)
    ensures key in KeysOf(Offers(peers)) <==> exists p :: p in peers && Cites(p.sources, key.0, key.1)
  {
    KeysOfMeans(Offers(peers), key);
    if i :| 0 <= i < |Offers(peers)| && KeyOf(Offers(peers)[i]) == key {
      var p := OfferedBy(peers, Offers(peers)[i]);
      OffersOfAre(p.sources, p.region);
      assert Cites(p.sources, key.0, key.1);
    }
    if p :| p in peers && Cites(p.sources, key.0, key.1) {
      var s :| Dict(s) in p.sources && s.document == key.0 && s.version == key.1;
      OffersOfAre(p.sources, p.region);
      var offer := s.(region := Some(if p.region != "" then p.region else "peer"));
      OfferIsThere(peers, p, offer);
      assert KeyOf(offer) == key;
    }
  }

  /** What is merged is cited exactly when the local result or some peer cites it. */
  lemma MergeCites(local: seq<Entry>, peers: seq<Peer>, document: Option<string>, version: Option<string>)
    ensures Cites(MergedSources(local, peers), document, version) <==>
            Cites(local, document, version) || exists p :: p in peers && Cites(p.sources, document, version)
  {
    CitesByKey(MergedSources(local, peers), document, version);
    CitesByKey(local, document, version);
    MergeMeans(local, peers);
    OfferedIff(peers, (document, version));
  }

  ghost predicate NobodyCites(peers: seq<Peer>, document: Option<string>, version: Option<string>) {
    forall p :: p in peers ==> !Cites(p.sources, document, version)
  }

  /** The k-th offer is the first with its key. */
  ghost predicate FirstAt(offers: seq<Source>, k: int) {
    0 <= k < |offers| && forall j :: 0 <= j < k ==> KeyOf(offers[j]) != KeyOf(offers[k])
  }

  lemma EarlierOffer(before: seq<Source>, more: seq<Source>, k: nat)
    requires FirstAt(before + more, k) && k < |before|
    ensures FirstAt(before, k) && before[k] == (before + more)[k]
  {
    assert forall j :: 0 <= j < |before| ==> (before + more)[j] == before[j];
  }

  lemma LaterOffer(front: seq<Peer>, more: seq<Source>, k: nat)
    requires FirstAt(Offers(front) + more, k) && k >= |Offers(front)|
    ensures (Offers(front) + more)[k] in more
    ensures NobodyCites(front, (Offers(front) + more)[k].document, (Offers(front) + more)[k].version)
  {
    var before, t := Offers(front), (Offers(front) + more)[k];
    assert t == more[k - |before|];
    assert forall j :: 0 <= j < |before| ==> (before + more)[j] == before[j];
    KeysOfMeans(before, KeyOf(t));
    OfferedIff(front, KeyOf(t));
  }

  lemma {:induction false} FirstOfferer(peers: seq<Peer>, k: nat) returns (i: nat)
    requires FirstAt(Offers(peers), k)
    ensures var t := Offers(peers)[k];
            && i < |peers| && t in OffersOf(peers[i].sources, peers[i].region)
            && NobodyCites(peers[..i], t.document, t.version)
  {
    var front, last := peers[..|peers| - 1], peers[|peers| - 1];
    if k < |Offers(front)| {
      EarlierOffer(Offers(front), OffersOf(last.sources, last.region), k);
      i := FirstOfferer(front, k);
      assert front[..i] == peers[..i];
    } else {
      i := |front|;
      LaterOffer(front, OffersOf(last.sources, last.region), k);
    }
  }

  /** What stands behind the local sources is not cited locally; it is a source of the first
      peer that cites it, marked with that peer's region. */
  lemma AddedComesFrom(local: seq<Entry>, peers: seq<Peer>, k: nat) returns (i: nat, s: Source)
    requires |local| <= k < |MergedSources(local, peers)|
    ensures i < |peers| && Dict(s) in peers[i].sources
    ensures var region := if peers[i].region != "" then peers[i].region else "peer";
            MergedSources(local, peers)[k] == Dict(s.(region := Some(region)))
    ensures !Cites(local, s.document, s.version) && NobodyCites(peers[..i], s.document, s.version)
  {
    AddedMeans(local, peers, k);
    var t := MergedSources(local, peers)[k].source;
    var at :| 0 <= at < |Offers(peers)| && Offers(peers)[at] == t
              && forall j :: 0 <= j < at ==> KeyOf(Offers(peers)[j]) != KeyOf(t);
    i := FirstOfferer(peers, at);
    OffersOfAre(peers[i].sources, peers[i].region);
    var p := peers[i];
    s :| Dict(s) in p.sources && t == s.(region := Some(if p.region != "" then p.region else "peer"));
    CitesByKey(local, s.document, s.version);
  }

  /** Peer i is the first of the home region with an answer. */
  ghost predicate FirstAnswer(peers: seq<Peer>, home: string, i: int) {
    && 0 <= i < |peers| && peers[i].region == home && peers[i].answer != ""
    && forall j :: 0 <= j < i && peers[j].region == home ==> peers[j].answer == ""
  }

  lemma {:induction false} HomeAnswerMeans(peers: seq<Peer>, home: string)
    ensures HomeAnswer(peers, home).None? <==>
            forall i :: 0 <= i < |peers| && peers[i].region == home ==> peers[i].answer == ""
    ensures forall i :: FirstAnswer(peers, home, i) ==> HomeAnswer(peers, home) == Some(peers[i].answer)
  {
    if peers != [] {
      var rest := peers[1..];
      HomeAnswerMeans(rest, home);
      assert forall i :: 0 < i < |peers| ==> peers[i] == rest[i - 1];
      assert forall i :: 0 <= i < |rest| ==> rest[i] == peers[i + 1];
      forall i | FirstAnswer(peers, home, i) && i > 0 ensures FirstAnswer(rest, home, i - 1) {}
    }
  }

  lemma {:induction false} RegionsOfReplies(answering: seq<Endpoint>, fetch: string -> Option<Peer>)
    requires forall i :: 0 <= i < |answering| ==> fetch(answering[i].1).Some?
    ensures RegionsOf(Replies(answering, fetch)) ==
            Filter(RegionNames(answering), (region: string) => region != "")
  {
    if answering != [] {
      var front := answering[..|answering| - 1];
      RegionsOfReplies(front, fetch);
      assert Replies(front, fetch) == Replies(answering, fetch)[..|front|];
      assert RegionNames(front) == RegionNames(answering)[..|front|];
    }
  }

  /** A federated result with some peer answering names, behind this region, those that answer
      in order; cites what the local result or any of them cites, and nothing else; and takes
      the answer of the home region when that gives one, else the local one. */
  lemma FederatedResult(local: Research, endpoints: seq<Endpoint>, home: string, localRegion: string,
                        fetch: string -> Option<Peer>)
    ensures var answering := Answering(endpoints, home, localRegion, fetch);
            var merged := Federate(local, true, endpoints, home, localRegion, fetch);
            && (forall e :: e in answering ==> fetch(e.1).Some?)
            && Federate(local, false, endpoints, home, localRegion, fetch) == local
            && (answering == [] ==> merged == local)
            && (answering != [] ==>
                  && merged.regions == [localRegion] +
                      Filter(RegionNames(answering), (region: string) => region != "")
                  && local.sources <= merged.sources
                  && (forall document, version :: Cites(merged.sources, document, version) <==>
                        || Cites(local.sources, document, version)
                        || exists e :: e in answering && Cites(fetch(e.1).value.sources, document, version)))
  {
    var answering := Answering(endpoints, home, localRegion, fetch);
    FederatesReplies(local, endpoints, home, localRegion, fetch);
    if answering != [] {
      var peers := Replies(answering, fetch);
      RegionsOfReplies(answering, fetch);
      MergeMeans(local.sources, peers);
      forall document, version
        ensures Cites(MergedSources(local.sources, peers), document, version) <==>
                || Cites(local.sources, document, version)
                || exists e :: e in answering && Cites(fetch(e.1).value.sources, document, version)
      {
        MergeCites(local.sources, peers, document, version);
        CitedByReply(answering, fetch, document, version);
      }
    }
  }

  lemma CitedByReply(answering: seq<Endpoint>, fetch: string -> Option<Peer>, document: Option<string>,
                     version: Option<string>)
    requires forall i :: 0 <= i < |answering| ==> fetch(answering[i].1).Some?
    ensures (exists p :: p in Replies(answering, fetch) && Cites(p.sources, document, version)) <==>
            exists e :: e in answering && fetch(e.1).Some? && Cites(fetch(e.1).value.sources, document, version)
  {
    var peers := Replies(answering, fetch);
    if p :| p in peers && Cites(p.sources, document, version) {
      var i :| 0 <= i < |peers| && peers[i] == p;
      assert answering[i] in answering;
    }
    if e :| e in answering && fetch(e.1).Some? && Cites(fetch(e.1).value.sources, document, version) {
      var i :| 0 <= i < |answering| && answering[i] == e;
      assert peers[i] in peers && peers[i].sources == fetch(e.1).value.sources;
    }
  }

  /** The answer of a federated result: the first non-empty one of the home region's peers,
      when the home region is another one; else the local answer. */
  lemma FederatedAnswer(local: Research, endpoints: seq<Endpoint>, home: string, localRegion: string,
                        fetch: string -> Option<Peer>, i: nat)
    requires i < |Answering(endpoints, home, localRegion, fetch)|
    ensures var answering := Answering(endpoints, home, localRegion, fetch);
            var merged := Federate(local, true, endpoints, home, localRegion, fetch);
            && (forall e :: e in answering ==> fetch(e.1).Some?)
            && (home == "" || home == localRegion
                || (forall e :: e in answering && e.0 == home ==> fetch(e.1).value.answer == "") ==>
                  merged.answer == local.answer)
            && (home != "" && home != localRegion && answering[i].0 == home && fetch(answering[i].1).value.answer != ""
                && (forall j :: 0 <= j < i && answering[j].0 == home ==> fetch(answering[j].1).value.answer == "") ==>
                  merged.answer == fetch(answering[i].1).value.answer)
  {
    var answering := Answering(endpoints, home, localRegion, fetch);
    FederatesReplies(local, endpoints, home, localRegion, fetch);
    var peers := Replies(answering, fetch);
    if forall e :: e in answering && e.0 == home ==> fetch(e.1).value.answer == "" {
      NoHomeAnswer(answering, peers, home, fetch);
    }
    if && answering[i].0 == home && fetch(answering[i].1).value.answer != ""
       && forall j :: 0 <= j < i && answering[j].0 == home ==> fetch(answering[j].1).value.answer == ""
    {
      FirstHomeAnswer(answering, peers, home, fetch, i);
    }
  }

  lemma NoHomeAnswer(answering: seq<Endpoint>, peers: seq<Peer>, home: string, fetch: string -> Option<Peer>)
    requires forall e :: e in answering ==> fetch(e.1).Some?
    requires peers == Replies(answering, fetch)
    requires forall e :: e in answering && e.0 == home ==> fetch(e.1).value.answer == ""
    ensures HomeAnswer(peers, home).None?
  {
    HomeAnswerMeans(peers, home);
    forall k | 0 <= k < |peers| && peers[k].region == home ensures peers[k].answer == "" {
      assert answering[k] in answering;
    }
  }

  lemma FirstHomeAnswer(answering: seq<Endpoint>, peers: seq<Peer>, home: string, fetch: string -> Option<Peer>, i: nat)
    requires forall e :: e in answering ==> fetch(e.1).Some?
    requires peers == Replies(answering, fetch) && i < |answering|
    requires answering[i].0 == home && fetch(answering[i].1).value.answer != ""
    requires forall j :: 0 <= j < i && answering[j].0 == home ==> fetch(answering[j].1).value.answer == ""
    ensures HomeAnswer(peers, home) == Some(fetch(answering[i].1).value.answer)
  {
    HomeAnswerMeans(peers, home);
    assert FirstAnswer(peers, home, i);
  }
}
