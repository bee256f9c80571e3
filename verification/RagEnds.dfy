/** What every run of the retrieval pipeline (query/app/rag_graph.py) has in each field from
    the node that settles it to its end, and what the clients asked later are given. */
module RagEnds {
  import opened Options
  import opened Reranking
  import opened PipelineGraph
  import opened RagPipeline
  import RagFields

  // ----- the fields of the supervisor and the embedder -----

  /** The fields a run settles before it searches: those the caller gives, those the
      supervisor may rewrite, and the vectors. */
  const EARLY_FIELDS := {
    TenantId, AdditionalCollectionIds, VersionId, SessionId, Query, CollectionId, DocumentId, InferenceScore,
    OriginalQuery, VisualIntent, DenseVector, SparseVector}

  /** What the supervisor's reply says of a field, if anything. */
  function Says(r: Rewrite, f: Field): Option<Value> {
    if f == Query then Some(Text(r.query))
    else if f == CollectionId && r.collection.Some? then Some(Text(r.collection.value))
    else if f == DocumentId && r.document.Some? then Some(Text(r.document.value))
    else if f in {InferenceScore, OriginalQuery, VisualIntent} && f in r.extra then Some(r.extra[f])
    else None
  }

  /** What a run that misses the cache settles on: what the supervisor says, the embedder's
      vectors, and everything else as the caller gave it. */
  function Settled(initial: State, w: World, f: Field): Value {
    if f == DenseVector && w.embed.Ok? then Vector(w.embed.value.0)
    else if f == SparseVector && w.embed.Ok? then Vector(w.embed.value.1)
    else if w.supervisorRuns && w.supervise.Ok? && Says(w.supervise.value, f).Some?
    then Says(w.supervise.value, f).value
    else Get(initial, f, Null)
  }

  /** The node that settles a field. */
  function Settler(f: Field): Node { if f in {DenseVector, SparseVector} then Embed else Supervisor }

  /** A call made before the early fields are settled, and one made after. */
  predicate IsEarly(c: Call) { c.CacheGet? || c.SuperviseCall? }

  predicate IsLate(c: Call) { c.RetrieveCall? || c.EnrichCall? || c.CompleteCall? || c.CacheSet? }

  predicate CallsCarry(calls: seq<Call>, f: Field, before: Value, after: Value) {
    forall i :: 0 <= i < |calls| ==>
      && (IsEarly(calls[i]) ==> Get(calls[i].given, f, Null) == before)
      && (IsLate(calls[i]) ==> Get(calls[i].given, f, Null) == after)
  }

  predicate SettledAt(n: Node, s: State, calls: seq<Call>, initial: State, w: World, f: Field) {
    && CallsCarry(calls, f, Get(initial, f, Null), Settled(initial, w, f))
    && Get(s, f, Null) == (if Rank(n) >= Rank(Settler(f)) then Get(initial, f, Null) else Settled(initial, w, f))
    && (n != CheckCache && n != End ==> !Truthy(s, FromCache))
  }

  predicate SettledStepped(n: Node, s: State, calls: seq<Call>, step: Step, initial: State, w: World, f: Field) {
    match step
    case Raised(more) => CallsCarry(calls + more, f, Get(initial, f, Null), Settled(initial, w, f))
    case Updates(updates, more) => SettledAt(Next(n, s + updates), s + updates, calls + more, initial, w, f)
  }

  /** A node gives its own state to those it asks, the early ones and the late ones in their places. */
  predicate GivesOwn(n: Node, s: State, calls: seq<Call>) {
    forall i :: 0 <= i < |calls| ==>
      && (IsEarly(calls[i]) ==> calls[i].given == s && Rank(n) >= Rank(Supervisor))
      && (IsLate(calls[i]) ==> calls[i].given == s && Rank(n) <= Rank(Retrieve))
  }

  lemma CallsGiven(n: Node, s: State, w: World)
    ensures GivesOwn(n, s, Perform(n, s, w).calls)
  {
    match n
    case CheckCache => CacheGives(s, w);
    case Supervisor => SupervisorGives(s, w);
    case Embed => EmbedGives(s, w);
    case Retrieve => RetrieveGives(s, w);
    case Rerank => RerankGives(s, w);
    case GraphEnrich => GraphGives(s, w);
    case AnswerNode => AnswerGives(s, w);
    case _ =>
  }

  lemma CacheGives(s: State, w: World)
    ensures GivesOwn(CheckCache, s, NodeCheckCache(s, w).calls)
  {
  }

  lemma SupervisorGives(s: State, w: World)
    ensures GivesOwn(Supervisor, s, NodeSupervisor(s, w).calls)
  {
  }

  lemma EmbedGives(s: State, w: World)
    ensures GivesOwn(Embed, s, NodeEmbed(s, w).calls)
  {
  }

  lemma RetrieveGives(s: State, w: World)
    ensures GivesOwn(Retrieve, s, NodeRetrieve(s, w).calls)
  {
    RetrieveEmbeds(s, w);
  }

  lemma RerankGives(s: State, w: World)
    ensures GivesOwn(Rerank, s, NodeRerank(s, w).calls)
  {
  }

  lemma GraphGives(s: State, w: World)
    ensures GivesOwn(GraphEnrich, s, NodeGraphEnrich(s, w).calls)
  {
  }

  lemma AnswerGives(s: State, w: World)
    ensures GivesOwn(AnswerNode, s, NodeAnswer(s, w).calls)
  {
  }

  ghost predicate Reads(updates: State, r: Rewrite, f: Field) {
    (f in updates <==> Says(r, f).Some?) && (f in updates ==> updates[f] == Says(r, f).value)
  }

  lemma RewriteSaysKey(r: Rewrite, f: Field)
    requires f in {Query, CollectionId, DocumentId}
    ensures Reads(RewriteUpdates(r), r, f)
  {
    RewriteSetsKey(r);
  }

  lemma RewriteSaysMore(r: Rewrite, f: Field)
    requires f in EARLY_FIELDS && f !in {Query, CollectionId, DocumentId, DenseVector, SparseVector}
    ensures Reads(RewriteUpdates(r), r, f)
  {
    RewriteSaysNote(r, f);
  }

  /** Beyond the key's fields a rewrite writes the notes it has, and nothing else. */
  lemma RewriteSaysNote(r: Rewrite, f: Field)
    requires f !in {Query, CollectionId, DocumentId}
    ensures f in RewriteUpdates(r) <==> f in r.extra && f in SUPERVISOR_FIELDS
    ensures f in r.extra && f in SUPERVISOR_FIELDS ==> RewriteUpdates(r)[f] == r.extra[f]
  {
  }

  lemma SupervisorReads(s: State, w: World, f: Field)
    requires w.supervisorRuns && w.supervise.Ok? && f != ScopeSource && f != TimingsMs
    ensures var updates, says := NodeSupervisor(s, w).updates, RewriteUpdates(w.supervise.value);
            (f in updates <==> f in says) && (f in says ==> updates[f] == says[f])
  {
  }

  lemma SupervisorSettles(s: State, w: World, f: Field)
    requires f in EARLY_FIELDS && Settler(f) == Supervisor && NodeSupervisor(s, w).Updates?
    ensures Get(s + NodeSupervisor(s, w).updates, f, Null) == Settled(s, w, f)
  {
    if w.supervisorRuns && w.supervise.Ok? {
      SupervisorReads(s, w, f);
      if f in {Query, CollectionId, DocumentId} {
        RewriteSaysKey(w.supervise.value, f);
      } else {
        RewriteSaysMore(w.supervise.value, f);
      }
      RewriteSettles(s, NodeSupervisor(s, w).updates, w, f);
    } else {
      SupervisorSilent(s, w);
      SilenceSettles(s, NodeSupervisor(s, w).updates, w, f);
    }
  }

  lemma SupervisorSilent(s: State, w: World)
    requires !(w.supervisorRuns && w.supervise.Ok?) && NodeSupervisor(s, w).Updates?
    ensures NodeSupervisor(s, w).updates.Keys == {TimingsMs}
  {
  }

  lemma RewriteSettles(s: State, updates: State, w: World, f: Field)
    requires w.supervisorRuns && w.supervise.Ok? && f !in {DenseVector, SparseVector}
    requires Reads(updates, w.supervise.value, f)
    ensures Get(s + updates, f, Null) == Settled(s, w, f)
  {
  }

  lemma SilenceSettles(s: State, updates: State, w: World, f: Field)
    requires !(w.supervisorRuns && w.supervise.Ok?) && updates.Keys == {TimingsMs}
    requires f !in {DenseVector, SparseVector, TimingsMs}
    ensures Get(s + updates, f, Null) == Settled(s, w, f)
  {
  }

  lemma EmbedSettles(s: State, w: World, f: Field)
    requires f in {DenseVector, SparseVector} && NodeEmbed(s, w).Updates?
    ensures Get(s + NodeEmbed(s, w).updates, f, Null) == Settled(s, w, f)
  {
  }

  lemma SameSettled(initial: State, s: State, w: World, f: Field)
    requires Get(s, f, Null) == Get(initial, f, Null)
    ensures Settled(s, w, f) == Settled(initial, w, f)
  {
  }

  lemma OnlySettlerWrites(n: Node, f: Field)
    requires f in EARLY_FIELDS && f in Writes(n)
    ensures n == Settler(f)
  {
  }

  /** The field at hand after one step. */
  lemma FieldAfter(n: Node, s: State, initial: State, w: World, f: Field)
    requires w.cached.None? && n != End && f in EARLY_FIELDS && Perform(n, s, w).Updates?
    requires Get(s, f, Null) == if Rank(n) >= Rank(Settler(f)) then Get(initial, f, Null) else Settled(initial, w, f)
    ensures Get(s + Perform(n, s, w).updates, f, Null) ==
            if Rank(n) > Rank(Settler(f)) then Get(initial, f, Null) else Settled(initial, w, f)
  {
    if n == Settler(f) {
      SameSettled(initial, s, w, f);
      if n == Embed { EmbedSettles(s, w, f); } else { SupervisorSettles(s, w, f); }
    } else {
      if f in Writes(n) { OnlySettlerWrites(n, f); }
      NodesWriteTheirFields(n, s, w);
      KeepsField(s, Perform(n, s, w).updates, Writes(n), f);
    }
  }

  lemma NextRank(n: Node, s: State)
    requires n != End && (n == CheckCache ==> !Truthy(s, FromCache))
    ensures Rank(Next(n, s)) == Rank(n) - 1 || (n == Rerank && Next(n, s) == AnswerNode)
  {
  }

  lemma StaysUncached(n: Node, s: State, w: World)
    requires w.cached.None? && n != End && (n != CheckCache ==> !Truthy(s, FromCache)) && Perform(n, s, w).Updates?
    ensures !Truthy(s + Perform(n, s, w).updates, FromCache)
  {
    RagFields.NodeRecords(n, s, w);
    if n != CheckCache { KeepsField(s, Perform(n, s, w).updates, Writes(n), FromCache); }
  }

  lemma StepCarries(n: Node, s: State, calls: seq<Call>, step: Step, initial: State, w: World, f: Field)
    requires SettledAt(n, s, calls, initial, w, f) && f in EARLY_FIELDS
    requires GivesOwn(n, s, step.calls)
    ensures CallsCarry(calls + step.calls, f, Get(initial, f, Null), Settled(initial, w, f))
  {
  }

  lemma StepSettles(n: Node, s: State, calls: seq<Call>, initial: State, w: World, f: Field)
    requires w.cached.None? && n != End && f in EARLY_FIELDS && SettledAt(n, s, calls, initial, w, f)
    ensures SettledStepped(n, s, calls, Perform(n, s, w), initial, w, f)
  {
    CallsGiven(n, s, w);
    StepCarries(n, s, calls, Perform(n, s, w), initial, w, f);
    if Perform(n, s, w).Updates? {
      FieldAfter(n, s, initial, w, f);
      StaysUncached(n, s, w);
      NextRank(n, s + Perform(n, s, w).updates);
    }
  }

  lemma {:induction false} FollowSettles(n: Node, s: State, calls: seq<Call>, initial: State, w: World, f: Field,
                                         r: Result)
    requires w.cached.None? && f in EARLY_FIELDS && SettledAt(n, s, calls, initial, w, f)
    requires r == Follow(n, s, calls, BehaviourIn(w))
    ensures SettledEnd(r, initial, w, f)
    decreases Rank(n), 1
  {
    if n != End {
      StepSettles(n, s, calls, initial, w, f);
      FollowOnward(n, s, calls, w, Perform(n, s, w), r);
      SettlesOnward(n, s, calls, Perform(n, s, w), initial, w, f, r);
    }
  }

  lemma {:induction false} SettlesOnward(n: Node, s: State, calls: seq<Call>, step: Step, initial: State, w: World,
                                         f: Field, r: Result)
    requires w.cached.None? && f in EARLY_FIELDS && n != End && SettledStepped(n, s, calls, step, initial, w, f)
    requires if step.Raised? then r == Failed(calls + step.calls) else
               r == Follow(Next(n, s + step.updates), s + step.updates, calls + step.calls, BehaviourIn(w))
    ensures SettledEnd(r, initial, w, f)
    decreases Rank(n), 0
  {
    if step.Updates? {
      FollowSettles(Next(n, s + step.updates), s + step.updates, calls + step.calls, initial, w, f, r);
    }
  }

  predicate SettledEnd(r: Result, initial: State, w: World, f: Field) {
    && CallsCarry(r.calls, f, Get(initial, f, Null), Settled(initial, w, f))
    && (r.Done? ==> Get(r.state, f, Null) == Settled(initial, w, f))
  }

  /** A run that misses the cache asks the cache and the supervisor with every field as the
      caller gave it; it searches, asks for context and for an answer, and stores that answer,
      with every field it has settled by then, and ends with them. */
  lemma RunSettles(initial: State, w: World, f: Field, r: Result)
    requires w.cached.None? && f in EARLY_FIELDS && r == Run(initial, w)
    ensures CallsCarry(r.calls, f, Get(initial, f, Null), Settled(initial, w, f))
    ensures r.Done? ==> Get(r.state, f, Null) == Settled(initial, w, f)
  {
    FollowSettles(CheckCache, initial, [], initial, w, f, r);
  }

  // ----- the scores beside the chunks -----

  /** Once reranked, the scores are those of the chunks, place for place. */
  predicate ScoredAt(n: Node, s: State) {
    && (n != CheckCache && n != End ==> !Truthy(s, FromCache))
    && (Rank(n) < Rank(Rerank) ==> Scored(s))
  }

  predicate Scored(s: State) { ScoresFit(Get(s, RerankScores, Null), ChunksOf(s)) }

  predicate ScoresFit(v: Value, chunks: seq<Chunk>) {
    && v.Scores? && |v.xs| == |chunks|
    && forall i :: 0 <= i < |chunks| ==> v.xs[i] == if chunks[i].score.Some? then chunks[i].score.value else 0.0
  }

  predicate ScoredStepped(n: Node, s: State, step: Step) {
    step.Updates? ==> ScoredAt(Next(n, s + step.updates), s + step.updates)
  }

  lemma RerankFits(s: State, w: World)
    requires NodeRerank(s, w).Updates?
    ensures var updates := NodeRerank(s, w).updates;
            && RerankScores in updates && RetrievedChunks in updates && updates[RetrievedChunks].Chunks?
            && ScoresFit(updates[RerankScores], updates[RetrievedChunks].cs)
  {
  }

  lemma StepScores(n: Node, s: State, w: World)
    requires w.cached.None? && n != End && ScoredAt(n, s)
    ensures ScoredStepped(n, s, Perform(n, s, w))
  {
    if Perform(n, s, w).Updates? {
      StaysUncached(n, s, w);
      NodesWriteTheirFields(n, s, w);
      NextRank(n, s + Perform(n, s, w).updates);
      if n == Rerank {
        RerankFits(s, w);
      } else if Rank(n) < Rank(Rerank) {
        KeepsField(s, Perform(n, s, w).updates, Writes(n), RerankScores);
        KeepsField(s, Perform(n, s, w).updates, Writes(n), RetrievedChunks);
      }
    }
  }

  lemma {:induction false} FollowScores(n: Node, s: State, calls: seq<Call>, w: World, r: Result)
    requires w.cached.None? && ScoredAt(n, s) && r == Follow(n, s, calls, BehaviourIn(w))
    ensures r.Done? ==> Scored(r.state)
    decreases Rank(n), 1
  {
    if n != End {
      StepScores(n, s, w);
      FollowOnward(n, s, calls, w, Perform(n, s, w), r);
      ScoresOnward(n, s, calls, Perform(n, s, w), w, r);
    }
  }

  lemma {:induction false} ScoresOnward(n: Node, s: State, calls: seq<Call>, step: Step, w: World, r: Result)
    requires w.cached.None? && n != End && ScoredStepped(n, s, step)
    requires if step.Raised? then r.Failed? else
               r == Follow(Next(n, s + step.updates), s + step.updates, calls + step.calls, BehaviourIn(w))
    ensures r.Done? ==> Scored(r.state)
    decreases Rank(n), 0
  {
    if step.Updates? { FollowScores(Next(n, s + step.updates), s + step.updates, calls + step.calls, w, r); }
  }

  /** A run that misses the cache and gets to its end has the score of each of its chunks
      beside it, place for place; a chunk without one counts as 0. */
  lemma RunScores(initial: State, w: World, r: Result)
    requires w.cached.None? && r == Run(initial, w) && r.Done?
    ensures ScoresFit(Get(r.state, RerankScores, Null), ChunksOf(r.state))
  {
    FollowScores(CheckCache, initial, [], w, r);
  }

  // ----- the graph -----

  /** The graph is wanted unless the caller switched it off. */
  predicate Wanted(s: State) { GraphEnrichEnabled in s ==> Truthy(s, GraphEnrichEnabled) }

  /** What the run has of the graph in the end: the context it gave; or that it is switched
      off, when its breaker is open; or what the caller gave. */
  function GraphField(initial: State, abstained: bool, w: World, f: Field): Value {
    if abstained || !Wanted(initial) then Get(initial, f, Null)
    else if f == ContextBlocks && w.enrich.Ok? then Texts(w.enrich.value)
    else if f == GraphEnrichEnabled && w.enrich.CircuitOpen? then Flag(false)
    else Get(initial, f, Null)
  }

  predicate GraphAt(n: Node, s: State, initial: State, w: World, f: Field) {
    && (n != CheckCache && n != End ==> !Truthy(s, FromCache))
    && (n == GraphEnrich ==> !Truthy(s, Abstained))
    && (if n == AnswerNode || n == End then Get(s, f, Null) == GraphField(initial, Truthy(s, Abstained), w, f)
        else Get(s, f, Null) == Get(initial, f, Null) && (Wanted(s) <==> Wanted(initial)))
  }

  predicate GraphStepped(n: Node, s: State, step: Step, initial: State, w: World, f: Field) {
    step.Updates? ==> GraphAt(Next(n, s + step.updates), s + step.updates, initial, w, f)
  }

  lemma EnrichLeaves(s: State, w: World, f: Field)
    requires f in {ContextBlocks, GraphEnrichEnabled} && !Truthy(s, Abstained) && NodeGraphEnrich(s, w).Updates?
    ensures Get(s + NodeGraphEnrich(s, w).updates, f, Null) == GraphField(s, false, w, f)
    ensures !Truthy(s + NodeGraphEnrich(s, w).updates, Abstained)
  {
    var updates := NodeGraphEnrich(s, w).updates;
    KeepsField(s, updates, Writes(GraphEnrich), Abstained);
    if Wanted(s) && w.enrich.CircuitOpen? {
      assert updates.Keys == {TimingsMs, GraphEnrichEnabled, DegradationLevel};
    }
  }

  lemma BystanderKeepsGraph(n: Node, s: State, updates: State, initial: State, w: World, f: Field)
    requires n != GraphEnrich && n != End && GraphAt(n, s, initial, w, f) && updates.Keys <= Writes(n)
    requires f in {ContextBlocks, GraphEnrichEnabled} && !Truthy(s + updates, FromCache)
    ensures GraphAt(Next(n, s + updates), s + updates, initial, w, f)
  {
    KeepsField(s, updates, Writes(n), f);
    KeepsField(s, updates, Writes(n), GraphEnrichEnabled);
    if n == AnswerNode { KeepsField(s, updates, Writes(n), Abstained); }
  }

  lemma StepGraphs(n: Node, s: State, initial: State, w: World, f: Field)
    requires w.cached.None? && n != End && f in {ContextBlocks, GraphEnrichEnabled} && GraphAt(n, s, initial, w, f)
    ensures GraphStepped(n, s, Perform(n, s, w), initial, w, f)
  {
    if Perform(n, s, w).Updates? {
      StaysUncached(n, s, w);
      NodesWriteTheirFields(n, s, w);
      if n == GraphEnrich {
        EnrichLeaves(s, w, f);
      } else {
        BystanderKeepsGraph(n, s, Perform(n, s, w).updates, initial, w, f);
      }
    }
  }

  lemma {:induction false} FollowGraphs(n: Node, s: State, calls: seq<Call>, initial: State, w: World, f: Field,
                                        r: Result)
    requires w.cached.None? && f in {ContextBlocks, GraphEnrichEnabled} && GraphAt(n, s, initial, w, f)
    requires r == Follow(n, s, calls, BehaviourIn(w))
    ensures GraphEnds(r, initial, w, f)
    decreases Rank(n), 1
  {
    if n != End {
      StepGraphs(n, s, initial, w, f);
      FollowOnward(n, s, calls, w, Perform(n, s, w), r);
      GraphsOnward(n, s, calls, Perform(n, s, w), initial, w, f, r);
    }
  }

  lemma {:induction false} GraphsOnward(n: Node, s: State, calls: seq<Call>, step: Step, initial: State, w: World,
                                        f: Field, r: Result)
    requires w.cached.None? && f in {ContextBlocks, GraphEnrichEnabled} && n != End
    requires GraphStepped(n, s, step, initial, w, f)
    requires if step.Raised? then r.Failed? else
               r == Follow(Next(n, s + step.updates), s + step.updates, calls + step.calls, BehaviourIn(w))
    ensures GraphEnds(r, initial, w, f)
    decreases Rank(n), 0
  {
    if step.Updates? {
      FollowGraphs(Next(n, s + step.updates), s + step.updates, calls + step.calls, initial, w, f, r);
    }
  }

  predicate GraphEnds(r: Result, initial: State, w: World, f: Field) {
    r.Done? ==> Get(r.state, f, Null) == GraphField(initial, Truthy(r.state, Abstained), w, f)
  }

  /** A run that misses the cache and gets to its end has the graph's context when its chunks
      were good enough and the graph was asked and gave one, and notes an open breaker. */
  lemma RunGraphs(initial: State, w: World, f: Field, r: Result)
    requires w.cached.None? && r == Run(initial, w) && r.Done? && f in {ContextBlocks, GraphEnrichEnabled}
    ensures Get(r.state, f, Null) == GraphField(initial, Truthy(r.state, Abstained), w, f)
  {
    FollowGraphs(CheckCache, initial, [], initial, w, f, r);
  }
}
