/** What whole runs of the retrieval pipeline (query/app/rag_graph.py) do with what their
    clients give them: which chunks are reranked, when an answer is sought, what is cited,
    how far the service has degraded, and what a cached answer leaves. */
module RagRuns {
  import opened Options
  import opened PythonLists
  import opened Sorting
  import opened Reranking
  import opened PipelineGraph
  import opened RagPipeline

  // ----- an ordinary run, as seen from outside -----

  /** The cache misses, nothing has abstained before, the embedder answers, and so does the store. */
  predicate Ordinary(initial: State, w: World) {
    w.cached.None? && !Truthy(initial, Abstained) && w.embed.Ok? && w.retrieve.Ok?
  }

  /** The query as the supervisor leaves it. */
  function QueryOf(initial: State, w: World): Value {
    Get(Supervised(initial, w), Query, Text(""))
  }

  /** What the store returns; nothing when it fails. */
  function RetrievedBy(w: World): seq<Chunk> {
    if w.retrieve.Ok? then w.retrieve.value else []
  }

  /** What the sidecar predicts; nothing when it fails. */
  function PredictedBy(w: World): seq<real> {
    if w.rerank.Ok? then w.rerank.value else []
  }

  /** The retrieved chunks as reranked, or in the fallback order while the reranker's breaker is open. */
  function Ranking(w: World): (seq<Chunk>, seq<real>)
  {
    if w.rerank.CircuitOpen? then Fallback(RetrievedBy(w), w.topK)
    else Reranked(RetrievedBy(w), w.rerankerStub, PredictedBy(w), w.topK)
  }

  /** Some retrieved chunk scores as much as is asked for, and top_k does not cut all of them off. */
  ghost predicate Confident(w: World)
  {
    var chunks := RetrievedBy(w);
    && Take(chunks, w.topK) != []
    && exists i :: 0 <= i < |chunks| &&
         (if w.rerank.CircuitOpen? then ScoreOr(chunks[i], 0.0)
          else OwnScore(chunks, w.rerankerStub, PredictedBy(w), i)) >= w.minScore
  }

  lemma ConfidentIff(w: World)
    ensures Confident(w) <==> !Abstains(Ranking(w).1, w.minScore)
  {
    var chunks := RetrievedBy(w);
    if w.rerank.CircuitOpen? {
      FallbackAbstainsIff(chunks, w.topK, w.minScore);
      assert (exists i :: 0 <= i < |chunks| && ScoreOr(chunks[i], 0.0) >= w.minScore) <==>
             !forall c :: c in chunks ==> ScoreOr(c, 0.0) < w.minScore by {
        if i :| 0 <= i < |chunks| && ScoreOr(chunks[i], 0.0) >= w.minScore { assert chunks[i] in chunks; }
      }
    } else {
      AbstainsIffAllBelow(chunks, w.rerankerStub, PredictedBy(w), w.topK, w.minScore);
    }
  }

  // ----- what the nodes see -----

  /** What of the state decides the course of a run. */
  datatype View = View(fromCache: bool, abstained: bool, degraded: bool, level: Value, chunks: seq<Chunk>,
                       enrich: bool, query: Value)

  function ViewOf(s: State): View {
    View(Truthy(s, FromCache), Truthy(s, Abstained), Truthy(s, DegradationLevel), Get(s, DegradationLevel, Null),
         ChunksOf(s), !(GraphEnrichEnabled in s && !Truthy(s, GraphEnrichEnabled)), Get(s, Query, Text("")))
  }

  const VIEWED := {FromCache, Abstained, DegradationLevel, RetrievedChunks, GraphEnrichEnabled, Query}

  lemma ViewKept(s: State, updates: State)
    requires updates.Keys !! VIEWED
    ensures ViewOf(s + updates) == ViewOf(s)
  {
    assert FromCache in VIEWED && Abstained in VIEWED && DegradationLevel in VIEWED;
    assert RetrievedChunks in VIEWED && GraphEnrichEnabled in VIEWED && Query in VIEWED;
  }

  lemma CacheMissView(s: State, w: World)
    requires w.cached.None?
    ensures NodeCheckCache(s, w).Updates? && NodeCheckCache(s, w).calls == [CacheGet(s)]
    ensures ViewOf(s + NodeCheckCache(s, w).updates) == ViewOf(s).(fromCache := false)
  {
  }

  lemma SupervisorView(s: State, w: World)
    requires NodeSupervisor(s, w).Updates?
    ensures ViewOf(s + NodeSupervisor(s, w).updates) ==
            if w.supervisorRuns && w.supervise.Ok? then ViewOf(s).(query := Text(w.supervise.value.query))
            else ViewOf(s)
  {
    SupervisorSetsKey(s, w);
    SupervisorWrites(s, w);
    RewriteView(s, NodeSupervisor(s, w).updates);
  }

  lemma RewriteView(s: State, updates: State)
    requires updates.Keys <= Writes(Supervisor)
    ensures ViewOf(s + updates) == if Query in updates then ViewOf(s).(query := updates[Query]) else ViewOf(s)
  {
    var others := updates - {Query};
    assert Query in VIEWED;
    assert others.Keys !! VIEWED;
    ViewKept(s, others);
    if Query in updates {
      assert s + updates == (s + others)[Query := updates[Query]];
      QueryReplaced(s + others, updates[Query]);
    } else {
      assert others == updates;
    }
  }

  lemma QueryReplaced(s: State, query: Value)
    ensures ViewOf(s[Query := query]) == ViewOf(s).(query := query)
  {
  }

  lemma EmbedView(s: State, w: World)
    requires w.embed.Ok?
    ensures NodeEmbed(s, w).Updates? && NodeEmbed(s, w).calls == [EmbedCall(Get(s, Query, Text("")))]
    ensures ViewOf(s + NodeEmbed(s, w).updates) == ViewOf(s)
  {
    assert NodeEmbed(s, w).updates.Keys == {TimingsMs, DenseVector, SparseVector};
    ViewKept(s, NodeEmbed(s, w).updates);
  }

  lemma ScopeView(s: State, w: World)
    ensures NodeScope(s, w).Updates? && NodeScope(s, w).calls == []
    ensures ViewOf(s + NodeScope(s, w).updates) == ViewOf(s)
  {
    assert NodeScope(s, w).updates.Keys == {TimingsMs, ScopeSource};
    ViewKept(s, NodeScope(s, w).updates);
  }

  lemma RetrieveView(s: State, w: World)
    requires w.retrieve.Ok? && !Truthy(s, Abstained)
    ensures NodeRetrieve(s, w).Updates? && NodeRetrieve(s, w).calls == RetrieveCalls(s)
    ensures ViewOf(s + NodeRetrieve(s, w).updates) == ViewOf(s).(chunks := RetrievedBy(w))
  {
    var timed := s + Tick(s, Retrieve, w);
    ViewKept(s, Tick(s, Retrieve, w));
    assert s + NodeRetrieve(s, w).updates == timed[RetrievedChunks := Chunks(RetrievedBy(w))];
  }

  /** The level once chunks are reranked: the one there was, or L2 when the reranker's breaker is open. */
  function RerankLevel(v: View, w: World): Value {
    if v.degraded || !w.rerank.CircuitOpen? then v.level else Level(L2)
  }

  lemma RerankView(s: State, w: World)
    requires w.retrieve.Ok? && ChunksOf(s) == RetrievedBy(w) && NodeRerank(s, w).Updates?
    ensures var v := ViewOf(s);
            ViewOf(s + NodeRerank(s, w).updates) ==
            v.(chunks := Ranking(w).0, abstained := !Confident(w), level := RerankLevel(v, w),
               degraded := v.degraded || w.rerank.CircuitOpen?)
  {
    RerankWrites(s, w);
    RerankLevelled(s, w);
    RankedView(s, NodeRerank(s, w).updates, Ranking(w).0, !Confident(w));
  }

  lemma RerankWrites(s: State, w: World)
    requires w.retrieve.Ok? && ChunksOf(s) == RetrievedBy(w) && NodeRerank(s, w).Updates?
    ensures var updates := NodeRerank(s, w).updates;
            && updates.Keys <= Writes(Rerank) && Abstained in updates && RetrievedChunks in updates
            && updates[Abstained] == Flag(!Confident(w)) && updates[RetrievedChunks] == Chunks(Ranking(w).0)
  {
    ConfidentIff(w);
  }

  lemma RankedView(s: State, updates: State, ranked: seq<Chunk>, abstained: bool)
    requires updates.Keys <= Writes(Rerank) && Abstained in updates && RetrievedChunks in updates
    requires updates[Abstained] == Flag(abstained) && updates[RetrievedChunks] == Chunks(ranked)
    ensures var v, after := ViewOf(s), ViewOf(s + updates);
            after == v.(chunks := ranked, abstained := abstained, level := after.level, degraded := after.degraded)
  {
    KeepsField(s, updates, Writes(Rerank), FromCache);
    KeepsField(s, updates, Writes(Rerank), GraphEnrichEnabled);
    KeepsField(s, updates, Writes(Rerank), Query);
  }

  lemma RerankLevelled(s: State, w: World)
    requires NodeRerank(s, w).Updates?
    ensures var s' := s + NodeRerank(s, w).updates;
            && Get(s', DegradationLevel, Null) == RerankLevel(ViewOf(s), w)
            && (Truthy(s', DegradationLevel) <==> Truthy(s, DegradationLevel) || w.rerank.CircuitOpen?)
  {
  }

  lemma RerankCalls(s: State, w: World)
    ensures NodeRerank(s, w).calls ==
            if w.rerank.CircuitOpen? then [] else [RerankCall(Get(s, Query, Text("")), ChunksOf(s))]
  {
  }

  /** The level once the graph was asked: the one there was, or L1 when the graph store's breaker is open. */
  function EnrichLevel(v: View, w: World): Value {
    if v.enrich && !v.degraded && w.enrich.CircuitOpen? then Level(L1) else v.level
  }

  lemma EnrichView(s: State, w: World)
    requires !Truthy(s, Abstained) && NodeGraphEnrich(s, w).Updates?
    ensures var v, after := ViewOf(s), ViewOf(s + NodeGraphEnrich(s, w).updates);
            && after.level == EnrichLevel(v, w) && after.chunks == v.chunks
            && !after.abstained && after.fromCache == v.fromCache
    ensures w.enrich.Ok? && ViewOf(s).enrich ==>
              Get(s + NodeGraphEnrich(s, w).updates, ContextBlocks, Null) == Texts(w.enrich.value)
  {
    EnrichWrites(s, w);
    EnrichedView(s, NodeGraphEnrich(s, w).updates);
  }

  lemma EnrichWrites(s: State, w: World)
    requires !Truthy(s, Abstained) && NodeGraphEnrich(s, w).Updates?
    ensures NodeGraphEnrich(s, w).updates.Keys <= Writes(GraphEnrich)
    ensures Get(s + NodeGraphEnrich(s, w).updates, DegradationLevel, Null) == EnrichLevel(ViewOf(s), w)
    ensures w.enrich.Ok? && ViewOf(s).enrich ==>
              Get(s + NodeGraphEnrich(s, w).updates, ContextBlocks, Null) == Texts(w.enrich.value)
  {
  }

  lemma EnrichedView(s: State, updates: State)
    requires updates.Keys <= Writes(GraphEnrich)
    ensures var v, after := ViewOf(s), ViewOf(s + updates);
            after.chunks == v.chunks && after.abstained == v.abstained && after.fromCache == v.fromCache
  {
    KeepsField(s, updates, Writes(GraphEnrich), FromCache);
    KeepsField(s, updates, Writes(GraphEnrich), Abstained);
    KeepsField(s, updates, Writes(GraphEnrich), RetrievedChunks);
  }

  // ----- the course of an ordinary run -----

  /** The view before each node up to the graph. */
  ghost function ViewAt(n: Node, initial: State, w: World): View
  {
    var v := ViewOf(initial).(fromCache := false);
    var supervised := v.(query := QueryOf(initial, w));
    var retrieved := supervised.(chunks := RetrievedBy(w));
    match n
    case CheckCache => ViewOf(initial)
    case Supervisor => v
    case Rerank => retrieved
    case GraphEnrich => retrieved.(chunks := Ranking(w).0, abstained := !Confident(w), level := RerankLevel(v, w),
                                   degraded := v.degraded || w.rerank.CircuitOpen?)
    case _ => supervised
  }

  /** The level of the ladder an ordinary run ends on. */
  ghost function FinalLevel(initial: State, w: World): Value
  {
    var ranked := ViewAt(GraphEnrich, initial, w);
    if Confident(w) then EnrichLevel(ranked, w) else ranked.level
  }

  /** Every embedding and reranking is of the supervised query, what is reranked are the
      retrieved chunks, and the graph is asked about the ranking. */
  ghost predicate CallsFit(calls: seq<Call>, initial: State, w: World)
  {
    && (forall i :: 0 <= i < |calls| && calls[i].EmbedCall? ==> calls[i].query == QueryOf(initial, w))
    && (forall i :: 0 <= i < |calls| && calls[i].RerankCall? ==>
          calls[i].query == QueryOf(initial, w) && calls[i].chunks == RetrievedBy(w))
    && (forall i :: 0 <= i < |calls| && calls[i].EnrichCall? ==> ChunksOf(calls[i].given) == Ranking(w).0)
  }

  predicate Reranks(calls: seq<Call>) {
    exists i :: 0 <= i < |calls| && calls[i].RerankCall?
  }

  predicate SeeksText(calls: seq<Call>) {
    exists i :: 0 <= i < |calls| && calls[i].CompleteCall?
  }

  /** What the graph store gave, when it was asked and answered, is at hand. */
  predicate InContext(s: State, initial: State, w: World) {
    w.enrich.Ok? && !(GraphEnrichEnabled in initial && !Truthy(initial, GraphEnrichEnabled)) ==>
      Get(s, ContextBlocks, Null) == Texts(w.enrich.value)
  }

  /** The chat model is given the ranked chunks and what the graph store gave. */
  ghost predicate WellAsked(calls: seq<Call>, initial: State, w: World) {
    forall i :: 0 <= i < |calls| && calls[i].CompleteCall? ==>
      ChunksOf(calls[i].given) == Ranking(w).0 && InContext(calls[i].given, initial, w)
  }

  ghost predicate Course(n: Node, s: State, calls: seq<Call>, initial: State, w: World)
  {
    && CallsFit(calls, initial, w)
    && (Rank(n) < Rank(Rerank) && !w.rerank.CircuitOpen? ==> Reranks(calls))
    && (match n
        case AnswerNode =>
          && Quiet(calls)
          && !Truthy(s, FromCache) && (Truthy(s, Abstained) <==> !Confident(w))
          && ChunksOf(s) == Ranking(w).0 && Get(s, DegradationLevel, Null) == FinalLevel(initial, w)
          && (Confident(w) ==> InContext(s, initial, w))
        case End => false
        case GraphEnrich => Quiet(calls) && Confident(w) && ViewOf(s) == ViewAt(n, initial, w)
        case _ => Quiet(calls) && ViewOf(s) == ViewAt(n, initial, w))
  }

  /** The run has come through the answer node. */
  ghost predicate CameThrough(s: State, calls: seq<Call>, initial: State, w: World) {
    exists t, before ::
      && Course(AnswerNode, t, before, initial, w) && NodeAnswer(t, w).Updates?
      && s == t + NodeAnswer(t, w).updates && calls == before + NodeAnswer(t, w).calls
  }

  /** The collection, document and score of each chunk, in order. */
  function Citations(ranked: seq<Chunk>): (sources: seq<Source>)
    ensures |sources| == |ranked|
    ensures forall i :: 0 <= i < |ranked| ==>
              sources[i].collection == ranked[i].collection && sources[i].document == ranked[i].document
              && sources[i].score == ranked[i].score
  {
    if ranked == [] then []
    else
      var last := ranked[|ranked| - 1];
      Citations(ranked[..|ranked| - 1]) + [Source(last.collection, last.document, last.score)]
  }

  /** A state as the answer node leaves it: it cites the ranked chunks, in order, and carries the
      chat model's text when the chunks were good enough and it gave one. */
  predicate Ends(s: State, ranked: seq<Chunk>, level: Value, confident: bool, w: World) {
    var answered := confident && w.complete.Ok?;
    && (Truthy(s, Abstained) <==> !confident)
    && ChunksOf(s) == ranked
    && Get(s, DegradationLevel, Null) == level
    && Get(s, Sources, Null) == Cites(Citations(ranked))
    && Get(s, AnswerText, Null) ==
         (if answered then Text(w.complete.value.0)
          else if confident || level in {Level(L3), Level(L4)} then Told(Unavailable)
          else Told(NotConfident))
    && Get(s, Stub, Null) == Flag(if answered then w.complete.value.1 else true)
  }

  /** What an ordinary run ends with.  When no chunk is good enough it abstains, and otherwise it
      asks for an answer unless the chat model's breaker is open. */
  ghost predicate Outcome(s: State, calls: seq<Call>, initial: State, w: World) {
    && (SeeksText(calls) <==> Confident(w) && !w.complete.CircuitOpen?)
    && WellAsked(calls, initial, w)
    && Ends(s, Ranking(w).0, FinalLevel(initial, w), Confident(w), w)
  }

  ghost predicate Stepped(n: Node, s: State, calls: seq<Call>, step: Step, initial: State, w: World)
  {
    match step
    case Raised(more) => CallsFit(calls + more, initial, w)
    case Updates(updates, more) => Followed(Next(n, s + updates), s + updates, calls + more, initial, w)
  }

  ghost predicate Followed(n: Node, s: State, calls: seq<Call>, initial: State, w: World) {
    if n == End then CameThrough(s, calls, initial, w) else Course(n, s, calls, initial, w)
  }

  /** A step that calls neither embedder nor reranker with anything else. */
  lemma CallsFitAppend(calls: seq<Call>, more: seq<Call>, initial: State, w: World)
    requires CallsFit(calls, initial, w) && CallsFit(more, initial, w)
    ensures CallsFit(calls + more, initial, w)
  {
  }

  lemma QuietAppend(calls: seq<Call>, more: seq<Call>)
    requires Quiet(calls) && Quiet(more)
    ensures Quiet(calls + more)
  {
  }

  /** A step up to the reranker, told by its view. */
  lemma EarlyStep(n: Node, s: State, calls: seq<Call>, step: Step, initial: State, w: World)
    requires Ordinary(initial, w) && Rank(n) > Rank(Rerank) && Course(n, s, calls, initial, w)
    requires CallsFit(step.calls, initial, w) && Quiet(step.calls)
    requires step.Updates? ==>
               var s' := s + step.updates;
               Rank(Next(n, s')) + 1 == Rank(n) && ViewOf(s') == ViewAt(Next(n, s'), initial, w)
    ensures Stepped(n, s, calls, step, initial, w)
  {
    CallsFitAppend(calls, step.calls, initial, w);
    QuietAppend(calls, step.calls);
  }

  lemma SupervisedQuery(initial: State, w: World)
    ensures QueryOf(initial, w) ==
            if w.supervisorRuns && w.supervise.Ok? then Text(w.supervise.value.query) else Get(initial, Query, Text(""))
  {
    if w.supervisorRuns && w.supervise.Ok? { RewriteSetsKey(w.supervise.value); }
  }

  lemma RetrieveCallsFit(s: State, initial: State, w: World)
    requires Get(s, Query, Text("")) == QueryOf(initial, w)
    ensures CallsFit(RetrieveCalls(s), initial, w) && Quiet(RetrieveCalls(s))
  {
  }

  lemma CacheMissSteps(s: State, calls: seq<Call>, initial: State, w: World)
    requires Ordinary(initial, w) && Course(CheckCache, s, calls, initial, w)
    ensures Stepped(CheckCache, s, calls, NodeCheckCache(s, w), initial, w)
  {
    CacheMissView(s, w);
    EarlyStep(CheckCache, s, calls, NodeCheckCache(s, w), initial, w);
  }

  lemma SupervisorSteps(s: State, calls: seq<Call>, initial: State, w: World)
    requires Ordinary(initial, w) && Course(Supervisor, s, calls, initial, w)
    ensures Stepped(Supervisor, s, calls, NodeSupervisor(s, w), initial, w)
  {
    SupervisedQuery(initial, w);
    SupervisorCalls(s, w);
    if NodeSupervisor(s, w).Updates? { SupervisorView(s, w); }
    EarlyStep(Supervisor, s, calls, NodeSupervisor(s, w), initial, w);
  }

  lemma SupervisorCalls(s: State, w: World)
    ensures forall i :: 0 <= i < |NodeSupervisor(s, w).calls| ==> NodeSupervisor(s, w).calls[i].SuperviseCall?
  {
  }

  lemma EmbedSteps(s: State, calls: seq<Call>, initial: State, w: World)
    requires Ordinary(initial, w) && Course(Embed, s, calls, initial, w)
    ensures Stepped(Embed, s, calls, NodeEmbed(s, w), initial, w)
  {
    EmbedView(s, w);
    EarlyStep(Embed, s, calls, NodeEmbed(s, w), initial, w);
  }

  lemma ScopeSteps(s: State, calls: seq<Call>, initial: State, w: World)
    requires Ordinary(initial, w) && Course(Scope, s, calls, initial, w)
    ensures Stepped(Scope, s, calls, NodeScope(s, w), initial, w)
  {
    ScopeView(s, w);
    EarlyStep(Scope, s, calls, NodeScope(s, w), initial, w);
  }

  lemma RetrieveSteps(s: State, calls: seq<Call>, initial: State, w: World)
    requires Ordinary(initial, w) && Course(Retrieve, s, calls, initial, w)
    ensures Stepped(Retrieve, s, calls, NodeRetrieve(s, w), initial, w)
  {
    RetrieveView(s, w);
    RetrieveCallsFit(s, initial, w);
    EarlyStep(Retrieve, s, calls, NodeRetrieve(s, w), initial, w);
  }

  lemma RerankSteps(s: State, calls: seq<Call>, initial: State, w: World)
    requires Ordinary(initial, w) && Course(Rerank, s, calls, initial, w)
    ensures Stepped(Rerank, s, calls, NodeRerank(s, w), initial, w)
  {
    RerankCalls(s, w);
    if NodeRerank(s, w).Updates? { RerankView(s, w); }
    RerankStep(s, calls, NodeRerank(s, w), initial, w);
  }

  lemma RerankStep(s: State, calls: seq<Call>, step: Step, initial: State, w: World)
    requires Ordinary(initial, w) && Course(Rerank, s, calls, initial, w)
    requires step.calls == if w.rerank.CircuitOpen? then [] else [RerankCall(QueryOf(initial, w), RetrievedBy(w))]
    requires step.Updates? ==> ViewOf(s + step.updates) == ViewAt(GraphEnrich, initial, w)
    ensures Stepped(Rerank, s, calls, step, initial, w)
  {
    CallsFitAppend(calls, step.calls, initial, w);
    QuietAppend(calls, step.calls);
    if !w.rerank.CircuitOpen? { assert (calls + step.calls)[|calls|].RerankCall?; }
  }

  lemma EnrichSteps(s: State, calls: seq<Call>, initial: State, w: World)
    requires Ordinary(initial, w) && Course(GraphEnrich, s, calls, initial, w)
    ensures Stepped(GraphEnrich, s, calls, NodeGraphEnrich(s, w), initial, w)
  {
    var step := NodeGraphEnrich(s, w);
    QuietUntilAnswer(GraphEnrich, s, w);
    EnrichCalls(s, w);
    GraphCallsFit(s, step.calls, initial, w);
    if step.Updates? { EnrichView(s, w); }
    CallsFitAppend(calls, step.calls, initial, w);
    QuietAppend(calls, step.calls);
    RerankedStill(calls, step.calls);
  }

  lemma EnrichCalls(s: State, w: World)
    ensures forall i :: 0 <= i < |NodeGraphEnrich(s, w).calls| ==>
              NodeGraphEnrich(s, w).calls[i].EnrichCall? && NodeGraphEnrich(s, w).calls[i].given == s
  {
  }

  lemma GraphCallsFit(s: State, more: seq<Call>, initial: State, w: World)
    requires ViewOf(s).chunks == Ranking(w).0
    requires forall i :: 0 <= i < |more| ==> more[i].EnrichCall? && more[i].given == s
    ensures CallsFit(more, initial, w)
  {
  }

  lemma RerankedStill(calls: seq<Call>, more: seq<Call>)
    ensures Reranks(calls) ==> Reranks(calls + more)
  {
    if i :| 0 <= i < |calls| && calls[i].RerankCall? { assert (calls + more)[i].RerankCall?; }
  }

  /** What the answer node calls when the run was not served from the cache. */
  lemma AnswerCalls(s: State, w: World)
    requires !Truthy(s, FromCache)
    ensures var calls := NodeAnswer(s, w).calls;
            && (forall i :: 0 <= i < |calls| ==> calls[i].CompleteCall? || calls[i].CacheSet?)
            && (forall i :: 0 <= i < |calls| && calls[i].CompleteCall? ==> calls[i].given == s)
            && (SeeksText(calls) <==> !Truthy(s, Abstained) && !w.complete.CircuitOpen?)
  {
    var calls := NodeAnswer(s, w).calls;
    assert calls == [] || calls[0].CompleteCall?;
  }

  lemma AnswerWrites(s: State, w: World)
    requires !Truthy(s, FromCache) && NodeAnswer(s, w).Updates?
    ensures var updates, chunks := NodeAnswer(s, w).updates, ChunksOf(s);
            var level := Get(s, DegradationLevel, Null);
            var asked := !Truthy(s, Abstained) && w.complete.Ok?;
            && updates.Keys == Writes(AnswerNode)
            && updates[Sources] == Cites(Citations(chunks))
            && updates[AnswerText] ==
                 (if asked then Text(w.complete.value.0)
                  else if !Truthy(s, Abstained) || level in {Level(L3), Level(L4)} then Told(Unavailable)
                  else Told(NotConfident))
            && updates[Stub] == Flag(if asked then w.complete.value.1 else true)
  {
    SourcesAreCitations(ChunksOf(s));
  }

  lemma SourcesAreCitations(ranked: seq<Chunk>)
    ensures BuildSources(ranked) == Citations(ranked)
  {
  }

  lemma AnswerEnds(s: State, w: World)
    requires !Truthy(s, FromCache) && NodeAnswer(s, w).Updates?
    ensures Ends(s + NodeAnswer(s, w).updates, ChunksOf(s), Get(s, DegradationLevel, Null), !Truthy(s, Abstained), w)
  {
    AnswerWrites(s, w);
    AnswerKeepsView(s, NodeAnswer(s, w).updates);
    AnswerReads(s, NodeAnswer(s, w).updates);
  }

  lemma AnswerSteps(s: State, calls: seq<Call>, initial: State, w: World)
    requires Course(AnswerNode, s, calls, initial, w)
    ensures Stepped(AnswerNode, s, calls, NodeAnswer(s, w), initial, w)
  {
    AnswerCalls(s, w);
    AnswerCallsFit(NodeAnswer(s, w).calls, initial, w);
    CallsFitAppend(calls, NodeAnswer(s, w).calls, initial, w);
  }

  lemma ThroughAnswer(s: State, calls: seq<Call>, initial: State, w: World)
    requires CameThrough(s, calls, initial, w)
    ensures CallsFit(calls, initial, w) && Outcome(s, calls, initial, w)
    ensures !w.rerank.CircuitOpen? ==> Reranks(calls)
  {
    var t, before :| && Course(AnswerNode, t, before, initial, w) && NodeAnswer(t, w).Updates?
                     && s == t + NodeAnswer(t, w).updates && calls == before + NodeAnswer(t, w).calls;
    AnswerCalls(t, w);
    AnswerEnds(t, w);
    AnsweredFrom(t, before, s, NodeAnswer(t, w).calls, initial, w);
  }

  lemma AnsweredFrom(t: State, before: seq<Call>, s: State, more: seq<Call>, initial: State, w: World)
    requires Course(AnswerNode, t, before, initial, w)
    requires forall i :: 0 <= i < |more| ==> more[i].CompleteCall? || more[i].CacheSet?
    requires forall i :: 0 <= i < |more| && more[i].CompleteCall? ==> more[i].given == t
    requires SeeksText(more) <==> !Truthy(t, Abstained) && !w.complete.CircuitOpen?
    requires Ends(s, ChunksOf(t), Get(t, DegradationLevel, Null), !Truthy(t, Abstained), w)
    ensures CallsFit(before + more, initial, w) && Outcome(s, before + more, initial, w)
    ensures !w.rerank.CircuitOpen? ==> Reranks(before + more)
  {
    AnswerCallsFit(more, initial, w);
    CallsFitAppend(before, more, initial, w);
    RerankedStill(before, more);
    OutcomeOf(t, before, s, more, initial, w);
  }

  lemma AnswerCallsFit(more: seq<Call>, initial: State, w: World)
    requires forall i :: 0 <= i < |more| ==> more[i].CompleteCall? || more[i].CacheSet?
    ensures CallsFit(more, initial, w)
  {
  }

  lemma OutcomeOf(t: State, before: seq<Call>, s: State, more: seq<Call>, initial: State, w: World)
    requires Quiet(before) && ChunksOf(t) == Ranking(w).0 && (Confident(w) ==> InContext(t, initial, w))
    requires forall i :: 0 <= i < |more| && more[i].CompleteCall? ==> more[i].given == t
    requires SeeksText(more) <==> Confident(w) && !w.complete.CircuitOpen?
    requires Ends(s, Ranking(w).0, FinalLevel(initial, w), Confident(w), w)
    ensures Outcome(s, before + more, initial, w)
  {
    TextSoughtIff(before, more);
    AskedWell(t, before, more, initial, w);
  }

  lemma AskedWell(t: State, before: seq<Call>, more: seq<Call>, initial: State, w: World)
    requires Quiet(before) && ChunksOf(t) == Ranking(w).0 && (SeeksText(more) ==> InContext(t, initial, w))
    requires forall i :: 0 <= i < |more| && more[i].CompleteCall? ==> more[i].given == t
    ensures WellAsked(before + more, initial, w)
  {
  }

  lemma AnswerKeepsView(s: State, updates: State)
    requires updates.Keys == Writes(AnswerNode)
    ensures Truthy(s + updates, Abstained) <==> Truthy(s, Abstained)
    ensures Get(s + updates, DegradationLevel, Null) == Get(s, DegradationLevel, Null)
    ensures ChunksOf(s + updates) == ChunksOf(s)
  {
    KeepsField(s, updates, Writes(AnswerNode), Abstained);
    KeepsField(s, updates, Writes(AnswerNode), DegradationLevel);
    KeepsField(s, updates, Writes(AnswerNode), RetrievedChunks);
  }

  lemma AnswerReads(s: State, updates: State)
    requires updates.Keys == Writes(AnswerNode)
    ensures Get(s + updates, Sources, Null) == updates[Sources]
    ensures Get(s + updates, AnswerText, Null) == updates[AnswerText]
    ensures Get(s + updates, Stub, Null) == updates[Stub]
  {
  }

  lemma TextSoughtIff(calls: seq<Call>, more: seq<Call>)
    requires Quiet(calls)
    ensures SeeksText(calls + more) <==> SeeksText(more)
  {
    if i :| 0 <= i < |more| && more[i].CompleteCall? { assert (calls + more)[|calls| + i].CompleteCall?; }
  }

  /** In an ordinary run the chunks the store returns, all of them and nothing else, are what
      is reranked, for the supervised query; a run that gets to its end has reranked them
      unless the breaker was open, and ends as Outcome says. */
  lemma OrdinaryRun(initial: State, w: World)
    requires Ordinary(initial, w)
    ensures CallsFit(Run(initial, w).calls, initial, w)
    ensures Run(initial, w).Done? ==>
              && (!w.rerank.CircuitOpen? ==> Reranks(Run(initial, w).calls))
              && Outcome(Run(initial, w).state, Run(initial, w).calls, initial, w)
  {
    var inv := (m, t, all) => Followed(m, t, all, initial, w);
    var failed := all => CallsFit(all, initial, w);
    forall n, s, calls | n != End && inv(n, s, calls) ensures StepKeeps(BehaviourIn(w), inv, failed, n, s, calls) {
      CourseKept(n, s, calls, initial, w);
    }
    FollowKeeps(BehaviourIn(w), inv, failed, CheckCache, initial, []);
    if Run(initial, w).Done? { ThroughAnswer(Run(initial, w).state, Run(initial, w).calls, initial, w); }
  }

  lemma CourseKept(n: Node, s: State, calls: seq<Call>, initial: State, w: World)
    requires Ordinary(initial, w) && n != End && Course(n, s, calls, initial, w)
    ensures Stepped(n, s, calls, Perform(n, s, w), initial, w)
  {
    match n
    case CheckCache => CacheMissSteps(s, calls, initial, w);
    case Supervisor => SupervisorSteps(s, calls, initial, w);
    case Embed => EmbedSteps(s, calls, initial, w);
    case Scope => ScopeSteps(s, calls, initial, w);
    case Retrieve => RetrieveSteps(s, calls, initial, w);
    case Rerank => RerankSteps(s, calls, initial, w);
    case GraphEnrich => EnrichSteps(s, calls, initial, w);
    case AnswerNode => AnswerSteps(s, calls, initial, w);
  }
}
