/** The nodes of the retrieval pipeline (query/app/rag_graph.py) and what a whole run of
    them keeps.

    Every client is called at most once per call site in a run, so the clients' behaviour
    in one run is a record of outcomes.  A run yields its final state and the calls
    it made, each with what it was given; or the calls made before an error other
    than an open breaker ended it. */
module RagPipeline {
  import opened Options
  import opened PythonLists
  import opened Reranking
  import opened PipelineGraph
  import QueryCaching

  // ----- one run's outside world -----

  datatype Outcome<T> = Ok(value: T) | CircuitOpen | Error

  /** What the supervisor may change. */
  datatype Rewrite = Rewrite(query: string, collection: Option<string>, document: Option<string>, extra: State)

  datatype World = World(
    cached: Option<Answer>,
    supervisorRuns: bool,
    supervise: Outcome<Rewrite>,
    embed: Outcome<(int, int)>,
    retrieve: Outcome<seq<Chunk>>,
    rerankerStub: bool,
    rerank: Outcome<seq<real>>,
    topK: int,
    minScore: real,
    enrich: Outcome<seq<string>>,
    complete: Outcome<(string, bool)>,
    elapsed: map<Node, int>)

  function Tick(s: State, node: Node, w: World): State {
    var before := if TimingsMs in s && s[TimingsMs].Timings? then s[TimingsMs].ms else map[];
    map[TimingsMs := Timings(before[node := if node in w.elapsed then w.elapsed[node] else 0])]
  }

  function NodeCheckCache(s: State, w: World): Step {
    match w.cached
    case Some(a) =>
      Updates(map[FromCache := Flag(true), AnswerText := Text(a.text), Sources := Cites(a.sources),
                  Stub := Flag(a.stub)]
              + Tick(s, CheckCache, w), [CacheGet(s)])
    case None => Updates(Tick(s, CheckCache, w) + map[FromCache := Flag(false)], [CacheGet(s)])
  }

  const SUPERVISOR_FIELDS := {ScopeSource, InferenceScore, OriginalQuery, VisualIntent}

  /** The supervisor's dictionary; it holds nothing but these fields. */
  function RewriteUpdates(r: Rewrite): State {
    (map f | f in r.extra && f in SUPERVISOR_FIELDS :: r.extra[f])
    + map[Query := Text(r.query)]
    + (if r.collection.Some? then map[CollectionId := Text(r.collection.value)] else map[])
    + (if r.document.Some? then map[DocumentId := Text(r.document.value)] else map[])
  }

  function NodeSupervisor(s: State, w: World): Step {
    var tick := Tick(s, Supervisor, w);
    if !w.supervisorRuns then Updates(tick, [])
    else
      match w.supervise
      case CircuitOpen => Updates(tick, [])
      case Error => Raised([SuperviseCall(s)])
      case Ok(r) =>
        var merged := tick + RewriteUpdates(r);
        var inferred := Truthy(RewriteUpdates(r), CollectionId) || Truthy(RewriteUpdates(r), DocumentId);
        Updates(if inferred && ScopeSource !in merged then merged[ScopeSource := Text("inferred")] else merged,
                [SuperviseCall(s)])
  }

  function NodeEmbed(s: State, w: World): Step {
    var query := Get(s, Query, Text(""));
    match w.embed
    case CircuitOpen => Updates(Tick(s, Embed, w) + map[Abstained := Flag(true), DegradationLevel := Level(L3)], [])
    case Error => Raised([EmbedCall(query)])
    case Ok(v) => Updates(Tick(s, Embed, w) + map[DenseVector := Vector(v.0), SparseVector := Vector(v.1)],
                          [EmbedCall(query)])
  }

  function NodeScope(s: State, w: World): Step {
    var source := if Truthy(s, ScopeSource) then s[ScopeSource]
                  else if Truthy(s, ExplicitScope) then Text("explicit") else Text("inferred");
    Updates(Tick(s, Scope, w) + map[ScopeSource := source], [])
  }

  /** retrieve_for_state embeds again when the state carries no vectors. */
  function RetrieveCalls(s: State): seq<Call> {
    (if Missing(s, DenseVector) || Missing(s, SparseVector) then [EmbedCall(Get(s, Query, Text("")))] else [])
    + [RetrieveCall(s)]
  }

  function NodeRetrieve(s: State, w: World): Step {
    if Truthy(s, Abstained) then Updates(Tick(s, Retrieve, w), [])
    else
      match w.retrieve
      case CircuitOpen =>
        Updates(Tick(s, Retrieve, w)
                + map[Abstained := Flag(true), DegradationLevel := Level(L4), RetrievedChunks := Chunks([])], [])
      case Error => Raised(RetrieveCalls(s))
      case Ok(cs) => Updates(Tick(s, Retrieve, w) + map[RetrievedChunks := Chunks(cs)], RetrieveCalls(s))
  }

  /** What rerank_chunks yields: with no chunks the client returns before its request can fail. */
  function RerankOutcome(chunks: seq<Chunk>, w: World): Outcome<(seq<Chunk>, seq<real>)> {
    match w.rerank
    case CircuitOpen => CircuitOpen
    case Error => if chunks == [] || w.rerankerStub then Ok(Reranked(chunks, w.rerankerStub, [], w.topK)) else Error
    case Ok(predicted) => Ok(Reranked(chunks, w.rerankerStub, predicted, w.topK))
  }

  function NodeRerank(s: State, w: World): Step {
    var chunks := ChunksOf(s);
    var calls := [RerankCall(Get(s, Query, Text("")), chunks)];
    var outcome := RerankOutcome(chunks, w);
    if outcome.Error? then Raised(calls)
    else
      var (ranked, scores) := if outcome.Ok? then outcome.value else Fallback(chunks, w.topK);
      var level := if outcome.Ok? || Truthy(s, DegradationLevel) then Get(s, DegradationLevel, Null) else Level(L2);
      var base := Tick(s, Rerank, w)
        + map[RetrievedChunks := Chunks(ranked), RerankScores := Scores(scores),
              Abstained := Flag(Abstains(scores, w.minScore))];
      Updates(if Truthy(map[DegradationLevel := level], DegradationLevel) then base[DegradationLevel := level]
              else base,
              if outcome.Ok? then calls else [])
  }

  function NodeGraphEnrich(s: State, w: World): Step {
    if (GraphEnrichEnabled in s && !Truthy(s, GraphEnrichEnabled)) || Truthy(s, Abstained)
    then Updates(Tick(s, GraphEnrich, w), [])
    else
      match w.enrich
      case CircuitOpen =>
        Updates(Tick(s, GraphEnrich, w)
                + map[GraphEnrichEnabled := Flag(false),
                      DegradationLevel := if Truthy(s, DegradationLevel) then s[DegradationLevel] else Level(L1)], [])
      case Error => Raised([EnrichCall(s)])
      case Ok(blocks) => Updates(Tick(s, GraphEnrich, w) + map[ContextBlocks := Texts(blocks)], [EnrichCall(s)])
  }

  function BuildSources(chunks: seq<Chunk>): (sources: seq<Source>)
    ensures |sources| == |chunks|
  {
    seq(|chunks|, i requires 0 <= i < |chunks| => Source(chunks[i].collection, chunks[i].document, chunks[i].score))
  }

  /** A notice stands for its wording. */
  function AnswerUpdates(s: State, text: Value, stub: bool, w: World): State {
    map[AnswerText := text, Sources := Cites(BuildSources(ChunksOf(s))), Stub := Flag(stub)]
        + Tick(s, AnswerNode, w)
  }

  function NodeAnswer(s: State, w: World): Step {
    if Truthy(s, FromCache) then Updates(map[], [])
    else if Truthy(s, Abstained) then
      var unavailable := DegradationLevel in s
          && (s[DegradationLevel] == Level(L3) || s[DegradationLevel] == Level(L4));
      Updates(AnswerUpdates(s, Told(if unavailable then Unavailable else NotConfident), true, w), [])
    else
      match w.complete
      case CircuitOpen => Updates(AnswerUpdates(s, Told(Unavailable), true, w), [])
      case Error => Raised([CompleteCall(s)])
      case Ok(done) =>
        Updates(AnswerUpdates(s, Text(done.0), done.1, w),
                [CompleteCall(s), CacheSet(s, Answer(done.0, BuildSources(ChunksOf(s)), done.1))])
  }

  function Perform(n: Node, s: State, w: World): Step {
    match n
    case CheckCache => NodeCheckCache(s, w)
    case Supervisor => NodeSupervisor(s, w)
    case Embed => NodeEmbed(s, w)
    case Scope => NodeScope(s, w)
    case Retrieve => NodeRetrieve(s, w)
    case Rerank => NodeRerank(s, w)
    case GraphEnrich => NodeGraphEnrich(s, w)
    case AnswerNode => NodeAnswer(s, w)
    case End => Updates(map[], [])
  }

  function BehaviourIn(w: World): Behaviour {
    (n, s) => Perform(n, s, w)
  }

  function Run(initial: State, w: World): Result {
    RunGraph(initial, BehaviourIn(w))
  }

  /** A run goes on from a node as the node leaves it. */
  lemma FollowOnward(n: Node, s: State, calls: seq<Call>, w: World, step: Step, r: Result)
    requires n != End && step == Perform(n, s, w) && r == Follow(n, s, calls, BehaviourIn(w))
    ensures step.Raised? ==> r == Failed(calls + step.calls)
    ensures step.Updates? ==>
              r == Follow(Next(n, s + step.updates), s + step.updates, calls + step.calls, BehaviourIn(w))
  {
  }

  // ----- what the nodes leave alone -----

  function Writes(n: Node): set<Field> {
    match n
    case CheckCache => {FromCache, AnswerText, Sources, Stub, TimingsMs}
    case Supervisor => {Query, CollectionId, DocumentId, ScopeSource, InferenceScore, OriginalQuery, VisualIntent,
                        TimingsMs}
    case Embed => {DenseVector, SparseVector, Abstained, DegradationLevel, TimingsMs}
    case Scope => {ScopeSource, TimingsMs}
    case Retrieve => {RetrievedChunks, Abstained, DegradationLevel, TimingsMs}
    case Rerank => {RetrievedChunks, RerankScores, Abstained, DegradationLevel, TimingsMs}
    case GraphEnrich => {ContextBlocks, GraphEnrichEnabled, DegradationLevel, TimingsMs}
    case AnswerNode => {AnswerText, Sources, Stub, TimingsMs}
    case End => {}
  }

  lemma SupervisorWrites(s: State, w: World)
    ensures var step := NodeSupervisor(s, w);
            step.Updates? ==> step.updates.Keys <= Writes(Supervisor)
  {
  }

  lemma NodesWriteTheirFields(n: Node, s: State, w: World)
    ensures var step := Perform(n, s, w);
            step.Updates? ==> step.updates.Keys <= Writes(n)
  {
    match n
    case CheckCache =>
    case Supervisor => SupervisorWrites(s, w);
    case Embed =>
    case Scope =>
    case Retrieve =>
    case Rerank =>
    case GraphEnrich =>
    case AnswerNode =>
    case End =>
  }

  lemma OtherFieldsKept(n: Node, s: State, w: World, f: Field)
    requires Perform(n, s, w).Updates? && f !in Writes(n)
    ensures var s' := s + Perform(n, s, w).updates;
            (f in s' <==> f in s) && (f in s ==> s'[f] == s[f])
  {
    NodesWriteTheirFields(n, s, w);
  }

  lemma KeepsField(s: State, updates: State, writes: set<Field>, f: Field)
    requires updates.Keys <= writes && f !in writes
    ensures (f in s + updates <==> f in s) && (f in s ==> (s + updates)[f] == s[f])
    ensures Truthy(s + updates, f) <==> Truthy(s, f)
    ensures Get(s + updates, f, Null) == Get(s, f, Null)
    ensures f == RetrievedChunks ==> ChunksOf(s + updates) == ChunksOf(s)
  {
  }

  // ----- the query is embedded at most once -----

  predicate NoEmbed(calls: seq<Call>) {
    forall i :: 0 <= i < |calls| ==> !calls[i].EmbedCall?
  }

  predicate AtMostOneEmbed(calls: seq<Call>) {
    forall i, j :: 0 <= i < j < |calls| ==> !(calls[i].EmbedCall? && calls[j].EmbedCall?)
  }

  predicate HasVectors(s: State) { !Missing(s, DenseVector) && !Missing(s, SparseVector) }

  /** Nothing embedded yet; or embedded once with the vectors at hand, or nothing to search for. */
  predicate EmbedInvariant(n: Node, s: State, calls: seq<Call>, w: World) {
    match n
    case CheckCache => NoEmbed(calls)
    case Supervisor => NoEmbed(calls) && w.cached.None?
    case Embed => NoEmbed(calls) && w.cached.None?
    case AnswerNode => AtMostOneEmbed(calls) && (NoEmbed(calls) <==> w.cached.Some? || w.embed.CircuitOpen?)
    case End => AtMostOneEmbed(calls) && (NoEmbed(calls) <==> w.cached.Some? || w.embed.CircuitOpen?)
    case _ =>
      && AtMostOneEmbed(calls) && w.cached.None? && (NoEmbed(calls) <==> w.embed.CircuitOpen?)
      && (n == Scope || n == Retrieve ==> HasVectors(s) || Truthy(s, Abstained))
  }

  lemma ScopeKeepsVectors(s: State, w: World)
    requires HasVectors(s) || Truthy(s, Abstained)
    ensures var step := NodeScope(s, w);
            && (HasVectors(s + step.updates) <==> HasVectors(s))
            && (Truthy(s + step.updates, Abstained) <==> Truthy(s, Abstained))
  {
    OtherFieldsKept(Scope, s, w, DenseVector);
    OtherFieldsKept(Scope, s, w, SparseVector);
    OtherFieldsKept(Scope, s, w, Abstained);
  }

  /** The retrieve node asks nobody when there is nothing to search for or the store's breaker
      is open; else it searches, and embeds the query first exactly when a vector is missing. */
  lemma RetrieveEmbeds(s: State, w: World)
    ensures NodeRetrieve(s, w).calls ==
            if Truthy(s, Abstained) || w.retrieve.CircuitOpen? then []
            else if (DenseVector in s && s[DenseVector] != Null) && (SparseVector in s && s[SparseVector] != Null)
            then [RetrieveCall(s)]
            else [EmbedCall(if Query in s then s[Query] else Text("")), RetrieveCall(s)]
    ensures HasVectors(s) || Truthy(s, Abstained) ==> NoEmbed(NodeRetrieve(s, w).calls)
  {
  }

  lemma NoEmbedElsewhere(n: Node, s: State, w: World)
    requires n != Embed && n != Retrieve
    ensures NoEmbed(Perform(n, s, w).calls)
  {
  }

  ghost predicate EmbedStep(n: Node, s: State, calls: seq<Call>, w: World) {
    StepKeeps(BehaviourIn(w), (m, t, all) => EmbedInvariant(m, t, all, w), AtMostOneEmbed, n, s, calls)
  }

  /** The two states the embed node can leave. */
  lemma EmbedLeaves(s: State, w: World)
    ensures w.embed.Ok? ==> HasVectors(s + NodeEmbed(s, w).updates)
    ensures w.embed.CircuitOpen? ==>
              && Truthy(s + NodeEmbed(s, w).updates, Abstained)
              && Get(s + NodeEmbed(s, w).updates, DegradationLevel, Null) == Level(L3)
  {
  }

  lemma EmbedNodeEmbeds(s: State, calls: seq<Call>, w: World)
    requires EmbedInvariant(Embed, s, calls, w)
    ensures EmbedStep(Embed, s, calls, w)
  {
    EmbedLeaves(s, w);
    var more := NodeEmbed(s, w).calls;
    if w.embed.CircuitOpen? {
      assert calls + more == calls;
    } else {
      assert (calls + more)[|calls|].EmbedCall?;
    }
  }

  lemma ScopeNodeEmbeds(s: State, calls: seq<Call>, w: World)
    requires EmbedInvariant(Scope, s, calls, w)
    ensures EmbedStep(Scope, s, calls, w)
  {
    assert calls + [] == calls;
    ScopeKeepsVectors(s, w);
  }

  lemma RetrieveNodeEmbeds(s: State, calls: seq<Call>, w: World)
    requires EmbedInvariant(Retrieve, s, calls, w)
    ensures EmbedStep(Retrieve, s, calls, w)
  {
    RetrieveEmbeds(s, w);
    NoEmbedAppend(calls, NodeRetrieve(s, w).calls);
  }

  lemma NoEmbedAppend(a: seq<Call>, b: seq<Call>)
    requires NoEmbed(b)
    ensures NoEmbed(a + b) <==> NoEmbed(a)
    ensures AtMostOneEmbed(a) ==> AtMostOneEmbed(a + b)
  {
    if NoEmbed(a + b) {
      forall i | 0 <= i < |a| ensures !a[i].EmbedCall? { assert (a + b)[i] == a[i]; }
    }
  }

  lemma CacheNodeEmbeds(s: State, calls: seq<Call>, w: World)
    requires EmbedInvariant(CheckCache, s, calls, w)
    ensures EmbedStep(CheckCache, s, calls, w)
  {
    NoEmbedAppend(calls, NodeCheckCache(s, w).calls);
    assert Perform(CheckCache, s, w) == NodeCheckCache(s, w);
    assert Truthy(s + NodeCheckCache(s, w).updates, FromCache) <==> w.cached.Some?;
  }

  /** The step's own part of EmbedStep, for whatever step the node took. */
  predicate EmbedStepped(n: Node, s: State, calls: seq<Call>, step: Step, w: World) {
    match step
    case Raised(more) => AtMostOneEmbed(calls + more)
    case Updates(updates, more) => EmbedInvariant(Next(n, s + updates), s + updates, calls + more, w)
  }

  lemma OtherNodesEmbed(n: Node, s: State, calls: seq<Call>, step: Step, w: World)
    requires n == Supervisor || n == Rerank || n == GraphEnrich || n == AnswerNode
    requires EmbedInvariant(n, s, calls, w) && NoEmbed(step.calls)
    ensures EmbedStepped(n, s, calls, step, w)
  {
    NoEmbedAppend(calls, step.calls);
  }

  /** From any state and with any client behaviour a run embeds its query at most once; a
      run that ends has embedded it unless the cache answered or the breaker was open. */
  lemma EmbedsAtMostOnce(initial: State, w: World)
    ensures AtMostOneEmbed(Run(initial, w).calls)
    ensures Run(initial, w).Done? ==> (NoEmbed(Run(initial, w).calls) <==> w.cached.Some? || w.embed.CircuitOpen?)
  {
    var inv := (m, t, all) => EmbedInvariant(m, t, all, w);
    forall n, s, calls | n != End && inv(n, s, calls)
      ensures StepKeeps(BehaviourIn(w), inv, AtMostOneEmbed, n, s, calls)
    {
      match n {
        case Embed => EmbedNodeEmbeds(s, calls, w);
        case Scope => ScopeNodeEmbeds(s, calls, w);
        case Retrieve => RetrieveNodeEmbeds(s, calls, w);
        case CheckCache => CacheNodeEmbeds(s, calls, w);
        case _ =>
          NoEmbedElsewhere(n, s, w);
          OtherNodesEmbed(n, s, calls, Perform(n, s, w), w);
      }
      assert EmbedStep(n, s, calls, w);
    }
    FollowKeeps(BehaviourIn(w), inv, AtMostOneEmbed, CheckCache, initial, []);
  }

  // ----- what is cached -----

  /** Asks the chat model for an answer, or stores one.  The supervisor's call to it is another. */
  predicate SeeksAnswer(c: Call) { c.CompleteCall? || c.CacheSet? }

  predicate Quiet(calls: seq<Call>) {
    forall i :: 0 <= i < |calls| ==> !SeeksAnswer(calls[i])
  }

  predicate NeverCached(calls: seq<Call>) {
    forall i :: 0 <= i < |calls| ==> !calls[i].CacheSet?
  }

  predicate Answered(s: State, w: World) {
    !Truthy(s, FromCache) && !Truthy(s, Abstained) && w.complete.Ok?
  }

  /** The last call, and no other, stores the answer the state carries. */
  predicate CachedLast(s: State, calls: seq<Call>) {
    && |calls| > 0
    && calls[|calls| - 1].CacheSet?
    && NeverCached(calls[..|calls| - 1])
    && var answer := calls[|calls| - 1].answer;
       && Get(s, AnswerText, Null) == Text(answer.text)
       && Get(s, Sources, Null) == Cites(answer.sources)
       && Get(s, Stub, Null) == Flag(answer.stub)
  }

  predicate CacheInvariant(n: Node, s: State, calls: seq<Call>, w: World) {
    if n != End then Quiet(calls)
    else if Answered(s, w) then CachedLast(s, calls) && Get(s, AnswerText, Null) == Text(w.complete.value.0)
    else NeverCached(calls)
  }

  /** The invariant after a step, whatever step the node took. */
  predicate CacheStepped(n: Node, s: State, calls: seq<Call>, step: Step, w: World) {
    match step
    case Raised(more) => NeverCached(calls + more)
    case Updates(updates, more) => CacheInvariant(Next(n, s + updates), s + updates, calls + more, w)
  }

  lemma QuietUntilAnswer(n: Node, s: State, w: World)
    requires n != AnswerNode
    ensures Quiet(Perform(n, s, w).calls)
  {
  }

  lemma EarlierNodesCache(n: Node, s: State, calls: seq<Call>, w: World)
    requires n != AnswerNode && n != End && Quiet(calls)
    ensures CacheStepped(n, s, calls, Perform(n, s, w), w)
  {
    QuietUntilAnswer(n, s, w);
  }

  /** What the answer node leaves, and what it calls. */
  lemma AnswerLeaves(s: State, w: World)
    requires NodeAnswer(s, w).Updates?
    ensures var s' := s + NodeAnswer(s, w).updates;
            && (!Answered(s, w) ==> NodeAnswer(s, w).calls == [])
            && (Answered(s, w) ==>
                  var answer := Answer(w.complete.value.0, BuildSources(ChunksOf(s)), w.complete.value.1);
                  && NodeAnswer(s, w).calls == [CompleteCall(s), CacheSet(s, answer)]
                  && Get(s', AnswerText, Null) == Text(answer.text)
                  && Get(s', Sources, Null) == Cites(answer.sources)
                  && Get(s', Stub, Null) == Flag(answer.stub))
  {
  }

  lemma AnswerKeeps(s: State, w: World)
    requires NodeAnswer(s, w).Updates?
    ensures Answered(s + NodeAnswer(s, w).updates, w) <==> Answered(s, w)
  {
    OtherFieldsKept(AnswerNode, s, w, FromCache);
    OtherFieldsKept(AnswerNode, s, w, Abstained);
  }

  lemma AnswerNodeCaches(s: State, calls: seq<Call>, w: World)
    requires Quiet(calls)
    ensures CacheStepped(AnswerNode, s, calls, NodeAnswer(s, w), w)
  {
    var step := NodeAnswer(s, w);
    if step.Updates? {
      AnswerLeaves(s, w);
      AnswerKeeps(s, w);
      AnswerCaches(s, calls, s + step.updates, step.calls, w);
    }
  }

  lemma AnswerCaches(s: State, calls: seq<Call>, s': State, more: seq<Call>, w: World)
    requires Quiet(calls) && (Answered(s', w) <==> Answered(s, w))
    requires !Answered(s, w) ==> more == []
    requires Answered(s, w) ==>
               && |more| == 2 && more[0] == CompleteCall(s) && more[1].CacheSet?
                   && more[1].answer.text == w.complete.value.0
               && Get(s', AnswerText, Null) == Text(more[1].answer.text)
               && Get(s', Sources, Null) == Cites(more[1].answer.sources)
               && Get(s', Stub, Null) == Flag(more[1].answer.stub)
    ensures CacheInvariant(End, s', calls + more, w)
  {
    var all := calls + more;
    if Answered(s, w) { assert all[..|all| - 1] == calls + [CompleteCall(s)]; }
  }

  /** A run stores an answer exactly when it ended, was not served from the cache, did not
      abstain and the chat model answered; then it stores once, as its last call, the
      very answer it returns. */
  lemma CachesExactlyCompletedAnswers(initial: State, w: World)
    ensures match Run(initial, w)
      case Failed(calls) => NeverCached(calls)
      case Done(s, calls) =>
        if Answered(s, w) then CachedLast(s, calls) && Get(s, AnswerText, Null) == Text(w.complete.value.0)
        else NeverCached(calls)
  {
    var inv := (m, t, all) => CacheInvariant(m, t, all, w);
    forall n, s, calls | n != End && inv(n, s, calls) ensures StepKeeps(BehaviourIn(w), inv, NeverCached, n, s, calls) {
      if n == AnswerNode { AnswerNodeCaches(s, calls, w); } else { EarlierNodesCache(n, s, calls, w); }
    }
    FollowKeeps(BehaviourIn(w), inv, NeverCached, CheckCache, initial, []);
  }

  // ----- the key an answer is cached under -----

  function TextOf(s: State, f: Field): string {
    if f in s && s[f].Text? then s[f].s else ""
  }

  function ListOf(s: State, f: Field): seq<string> {
    if f in s && s[f].Texts? then s[f].ss else []
  }

  /** What the cache reads from the state to make its key. */
  function RequestOf(s: State): QueryCaching.Request {
    QueryCaching.Request(
      TextOf(s, TenantId), TextOf(s, CollectionId), ListOf(s, AdditionalCollectionIds), TextOf(s, DocumentId),
      TextOf(s, VersionId), TextOf(s, Query), TextOf(s, SessionId))
  }

  const KEY_FIELDS := {TenantId, CollectionId, AdditionalCollectionIds, DocumentId, VersionId, Query, SessionId}

  /** The request as the supervisor leaves it. */
  function Supervised(initial: State, w: World): State {
    if w.supervisorRuns && w.supervise.Ok? then initial + RewriteUpdates(w.supervise.value) else initial
  }

  lemma KeyFieldsKept(s: State, updates: State, writes: set<Field>)
    requires updates.Keys <= writes && writes !! KEY_FIELDS
    ensures RequestOf(s + updates) == RequestOf(s)
  {
    assert KEY_FIELDS !! updates.Keys;
    assert TenantId in KEY_FIELDS && CollectionId in KEY_FIELDS && AdditionalCollectionIds in KEY_FIELDS;
    assert DocumentId in KEY_FIELDS && VersionId in KEY_FIELDS && Query in KEY_FIELDS && SessionId in KEY_FIELDS;
  }

  /** What a rewrite puts into the key's fields. */
  predicate RewritesKey(updates: State, r: Rewrite) {
    && Query in updates && updates[Query] == Text(r.query)
    && (if r.collection.Some? then CollectionId in updates && updates[CollectionId] == Text(r.collection.value)
        else CollectionId !in updates)
    && (if r.document.Some? then DocumentId in updates && updates[DocumentId] == Text(r.document.value)
        else DocumentId !in updates)
    && TenantId !in updates && AdditionalCollectionIds !in updates && VersionId !in updates && SessionId !in updates
  }

  lemma RewriteSetsKey(r: Rewrite)
    ensures RewritesKey(RewriteUpdates(r), r)
  {
  }

  lemma SupervisorSetsKey(s: State, w: World)
    requires NodeSupervisor(s, w).Updates?
    ensures if w.supervisorRuns && w.supervise.Ok? then RewritesKey(NodeSupervisor(s, w).updates, w.supervise.value)
            else NodeSupervisor(s, w).updates.Keys == {TimingsMs}
  {
    if w.supervisorRuns && w.supervise.Ok? { RewriteSetsKey(w.supervise.value); }
  }

  lemma SameRewriteSameKey(a: State, b: State, u: State, v: State, r: Rewrite)
    requires RequestOf(a) == RequestOf(b) && RewritesKey(u, r) && RewritesKey(v, r)
    ensures RequestOf(a + u) == RequestOf(b + v)
  {
  }

  lemma RewriteKeepsKeyIff(s: State, updates: State, r: Rewrite)
    requires RewritesKey(updates, r)
    ensures RequestOf(s + updates) == RequestOf(s) <==>
            && TextOf(s, Query) == r.query
            && (r.collection.Some? ==> TextOf(s, CollectionId) == r.collection.value)
            && (r.document.Some? ==> TextOf(s, DocumentId) == r.document.value)
  {
  }

  predicate CachedUnder(calls: seq<Call>, key: QueryCaching.Request) {
    forall i :: 0 <= i < |calls| && calls[i].CacheSet? ==> RequestOf(calls[i].given) == key
  }

  predicate KeyInvariant(n: Node, s: State, calls: seq<Call>, initial: State, w: World) {
    && CachedUnder(calls, RequestOf(Supervised(initial, w)))
    && (match n
        case CheckCache => RequestOf(s) == RequestOf(initial)
        case Supervisor => RequestOf(s) == RequestOf(initial)
        case AnswerNode => Truthy(s, FromCache) || RequestOf(s) == RequestOf(Supervised(initial, w))
        case End => true
        case _ => RequestOf(s) == RequestOf(Supervised(initial, w)))
  }

  lemma QuietIsCachedUnder(calls: seq<Call>, key: QueryCaching.Request)
    requires Quiet(calls)
    ensures CachedUnder(calls, key)
  {
  }

  lemma CachedUnderAppend(a: seq<Call>, b: seq<Call>, key: QueryCaching.Request)
    requires CachedUnder(a, key) && CachedUnder(b, key)
    ensures CachedUnder(a + b, key)
  {
  }

  /** The invariant after a step, whatever step the node took. */
  predicate KeyStepped(n: Node, s: State, calls: seq<Call>, step: Step, initial: State, w: World) {
    match step
    case Raised(more) => CachedUnder(calls + more, RequestOf(Supervised(initial, w)))
    case Updates(updates, more) => KeyInvariant(Next(n, s + updates), s + updates, calls + more, initial, w)
  }

  lemma SupervisorKeepsKey(s: State, calls: seq<Call>, initial: State, w: World)
    requires KeyInvariant(Supervisor, s, calls, initial, w)
    ensures KeyStepped(Supervisor, s, calls, NodeSupervisor(s, w), initial, w)
  {
    QuietUntilAnswer(Supervisor, s, w);
    QuietIsCachedUnder(NodeSupervisor(s, w).calls, RequestOf(Supervised(initial, w)));
    CachedUnderAppend(calls, NodeSupervisor(s, w).calls, RequestOf(Supervised(initial, w)));
    if NodeSupervisor(s, w).Updates? {
      SupervisorSetsKey(s, w);
      if w.supervisorRuns && w.supervise.Ok? {
        RewriteSetsKey(w.supervise.value);
        SameRewriteSameKey(s, initial, NodeSupervisor(s, w).updates, RewriteUpdates(w.supervise.value),
                           w.supervise.value);
      } else {
        KeyFieldsKept(s, NodeSupervisor(s, w).updates, {TimingsMs});
      }
    }
  }

  lemma AnswerNodeKeepsKey(s: State, calls: seq<Call>, step: Step, initial: State, w: World)
    requires KeyInvariant(AnswerNode, s, calls, initial, w)
    requires forall i :: 0 <= i < |step.calls| && step.calls[i].CacheSet? ==>
               !Truthy(s, FromCache) && step.calls[i].given == s
    ensures KeyStepped(AnswerNode, s, calls, step, initial, w)
  {
    CachedUnderAppend(calls, step.calls, RequestOf(Supervised(initial, w)));
  }

  lemma OtherNodesKeepKey(n: Node, s: State, calls: seq<Call>, step: Step, initial: State, w: World)
    requires n != Supervisor && n != AnswerNode && n != End
    requires KeyInvariant(n, s, calls, initial, w)
    requires Quiet(step.calls) && (step.Updates? ==> step.updates.Keys <= Writes(n))
    ensures KeyStepped(n, s, calls, step, initial, w)
  {
    QuietIsCachedUnder(step.calls, RequestOf(Supervised(initial, w)));
    CachedUnderAppend(calls, step.calls, RequestOf(Supervised(initial, w)));
    if step.Updates? { KeyFieldsKept(s, step.updates, Writes(n)); }
  }

  lemma AnswerStoresItsState(s: State, w: World)
    ensures var calls := NodeAnswer(s, w).calls;
            forall i :: 0 <= i < |calls| && calls[i].CacheSet? ==> !Truthy(s, FromCache) && calls[i].given == s
  {
  }

  lemma StepKeepsKey(n: Node, s: State, calls: seq<Call>, initial: State, w: World)
    requires n != End && KeyInvariant(n, s, calls, initial, w)
    ensures KeyStepped(n, s, calls, Perform(n, s, w), initial, w)
  {
    match n
    case Supervisor => SupervisorKeepsKey(s, calls, initial, w);
    case AnswerNode =>
      AnswerStoresItsState(s, w);
      AnswerNodeKeepsKey(s, calls, NodeAnswer(s, w), initial, w);
    case _ =>
      QuietUntilAnswer(n, s, w);
      NodesWriteTheirFields(n, s, w);
      OtherNodesKeepKey(n, s, calls, Perform(n, s, w), initial, w);
  }

  /** The first call, and no other, looks an answer up, under the given key. */
  predicate LookedUpFirst(calls: seq<Call>, key: QueryCaching.Request) {
    && calls != [] && calls[0].CacheGet? && RequestOf(calls[0].given) == key
    && forall i :: 1 <= i < |calls| ==> !calls[i].CacheGet?
  }

  predicate LookupInvariant(n: Node, s: State, calls: seq<Call>, initial: State) {
    if n == CheckCache then calls == [] && s == initial else LookedUpFirst(calls, RequestOf(initial))
  }

  lemma OnlyFirstLooksUp(n: Node, s: State, w: World)
    requires n != CheckCache
    ensures forall i :: 0 <= i < |Perform(n, s, w).calls| ==> !Perform(n, s, w).calls[i].CacheGet?
  {
  }

  lemma LookupAppend(calls: seq<Call>, more: seq<Call>, key: QueryCaching.Request)
    requires LookedUpFirst(calls, key) && forall i :: 0 <= i < |more| ==> !more[i].CacheGet?
    ensures LookedUpFirst(calls + more, key)
  {
  }

  lemma CacheNodeLooksUp(s: State, w: World)
    ensures Perform(CheckCache, s, w).Updates? && Perform(CheckCache, s, w).calls == [CacheGet(s)]
  {
  }

  /** The invariant after a step, whatever step the node took. */
  predicate LookupStepped(n: Node, s: State, calls: seq<Call>, step: Step, initial: State) {
    match step
    case Raised(more) => LookedUpFirst(calls + more, RequestOf(initial))
    case Updates(updates, more) => LookupInvariant(Next(n, s + updates), s + updates, calls + more, initial)
  }

  lemma StepLooksUp(n: Node, s: State, calls: seq<Call>, step: Step, initial: State)
    requires LookupInvariant(n, s, calls, initial)
    requires if n == CheckCache then step.calls == [CacheGet(s)]
             else forall i :: 0 <= i < |step.calls| ==> !step.calls[i].CacheGet?
    ensures LookupStepped(n, s, calls, step, initial)
  {
    if n == CheckCache {
      assert calls + step.calls == [CacheGet(initial)];
    } else {
      LookupAppend(calls, step.calls, RequestOf(initial));
    }
  }

  lemma LooksUpFirst(initial: State, w: World)
    ensures LookedUpFirst(Run(initial, w).calls, RequestOf(initial))
  {
    var inv := (m, t, all) => LookupInvariant(m, t, all, initial);
    var failed := all => LookedUpFirst(all, RequestOf(initial));
    forall n, s, calls | n != End && inv(n, s, calls) ensures StepKeeps(BehaviourIn(w), inv, failed, n, s, calls) {
      if n == CheckCache { CacheNodeLooksUp(s, w); } else { OnlyFirstLooksUp(n, s, w); }
      StepLooksUp(n, s, calls, Perform(n, s, w), initial);
    }
    FollowKeeps(BehaviourIn(w), inv, failed, CheckCache, initial, []);
  }

  /** A run looks an answer up under the request it was given but stores it under the
      request the supervisor made of it. */
  lemma CachedUnderSupervisedKey(initial: State, w: World)
    ensures LookedUpFirst(Run(initial, w).calls, RequestOf(initial))
    ensures CachedUnder(Run(initial, w).calls, RequestOf(Supervised(initial, w)))
  {
    var inv := (m, t, all) => KeyInvariant(m, t, all, initial, w);
    var failed := all => CachedUnder(all, RequestOf(Supervised(initial, w)));
    forall n, s, calls | n != End && inv(n, s, calls) ensures StepKeeps(BehaviourIn(w), inv, failed, n, s, calls) {
      StepKeepsKey(n, s, calls, initial, w);
    }
    FollowKeeps(BehaviourIn(w), inv, failed, CheckCache, initial, []);
    LooksUpFirst(initial, w);
  }

  /** The supervisor changed none of the fields that reach the key. */
  predicate RequestKept(initial: State, w: World) {
    w.supervisorRuns && w.supervise.Ok? ==>
      var r := w.supervise.value;
      && TextOf(initial, Query) == r.query
      && (r.collection.Some? ==> TextOf(initial, CollectionId) == r.collection.value)
      && (r.document.Some? ==> TextOf(initial, DocumentId) == r.document.value)
  }

  /** The cache key the answer is stored under is the one the same request, asked again, is
      looked up under. */
  predicate SameKey(initial: State, w: World, versions: QueryCaching.Versions, historyAware: bool) {
    QueryCaching.KeyOf(versions, RequestOf(initial), historyAware) ==
    QueryCaching.KeyOf(versions, RequestOf(Supervised(initial, w)), historyAware)
  }

  /** The two keys agree, whatever the versions of the scopes, when the supervisor kept the
      request, and only then if no separator makes different requests join alike. */
  lemma FoundAgainIff(initial: State, w: World, versions: QueryCaching.Versions, historyAware: bool)
    ensures RequestKept(initial, w) ==> SameKey(initial, w, versions, historyAware)
    ensures QueryCaching.Separable(RequestOf(initial), historyAware) &&
            QueryCaching.Separable(RequestOf(Supervised(initial, w)), historyAware) ==>
              (SameKey(initial, w, versions, historyAware) <==> RequestKept(initial, w))
  {
    var asked, stored := RequestOf(initial), RequestOf(Supervised(initial, w));
    if w.supervisorRuns && w.supervise.Ok? {
      RewriteSetsKey(w.supervise.value);
      RewriteKeepsKeyIff(initial, RewriteUpdates(w.supervise.value), w.supervise.value);
      SupervisedAgrees(initial, w);
    }
    if && QueryCaching.Separable(asked, historyAware) && QueryCaching.Separable(stored, historyAware)
       && QueryCaching.Joined(asked, historyAware) == QueryCaching.Joined(stored, historyAware) {
      QueryCaching.SeparableJoinApart(asked, stored, historyAware);
    }
  }

  lemma SupervisedAgrees(initial: State, w: World)
    ensures var asked, stored := RequestOf(initial), RequestOf(Supervised(initial, w));
            asked.tenant == stored.tenant && asked.additional == stored.additional &&
            asked.version == stored.version && asked.session == stored.session
  {
    if w.supervisorRuns && w.supervise.Ok? { RewriteSetsKey(w.supervise.value); }
  }

  /** Two runs look up the same cache key only when their states agree in tenant, collection,
      additional collections, document, version, query and, with history, session, if no
      separator makes different requests join alike. */
  lemma SameKeySameFields(s: State, t: State, versions: QueryCaching.Versions, historyAware: bool)
    requires QueryCaching.Separable(RequestOf(s), historyAware) && QueryCaching.Separable(RequestOf(t), historyAware)
    requires QueryCaching.KeyOf(versions, RequestOf(s), historyAware) ==
             QueryCaching.KeyOf(versions, RequestOf(t), historyAware)
    ensures forall f :: f in {TenantId, CollectionId, DocumentId, VersionId, Query} ==> TextOf(s, f) == TextOf(t, f)
    ensures multiset(ListOf(s, AdditionalCollectionIds)) == multiset(ListOf(t, AdditionalCollectionIds))
    ensures historyAware ==> TextOf(s, SessionId) == TextOf(t, SessionId)
  {
    QueryCaching.SeparableJoinApart(RequestOf(s), RequestOf(t), historyAware);
  }

  /** A rewritten query is such a case: the answer is stored where the same request does not look. */
  lemma RewrittenIsNotFoundAgain(w: World, versions: QueryCaching.Versions, historyAware: bool)
    requires w.supervisorRuns && w.supervise.Ok? && w.supervise.value == Rewrite("who?", None, None, map[])
    ensures var initial := map[TenantId := Text("t"), Query := Text("who is it?")];
            !SameKey(initial, w, versions, historyAware)
  {
    var initial := map[TenantId := Text("t"), Query := Text("who is it?")];
    RewriteSetsKey(w.supervise.value);
    FoundAgainIff(initial, w, versions, historyAware);
    assert |TextOf(initial, Query)| == 10 && |w.supervise.value.query| == 4;
  }
}
