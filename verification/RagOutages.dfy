/** Runs of the retrieval pipeline with an open breaker (query/app/rag_graph.py): what keeps
    an abstention, and what lifts it. */
module RagOutages {
  import opened Options
  import opened PythonLists
  import opened Reranking
  import opened PipelineGraph
  import opened RagPipeline

  // ----- open breakers -----

  /** Abstained with nothing retrieved, at a degradation level. */
  predicate Down(s: State, level: Ladder) {
    Truthy(s, Abstained) && Get(s, DegradationLevel, Null) == Level(level) && ChunksOf(s) == []
  }

  predicate OutOfService(s: State, calls: seq<Call>, level: Ladder) {
    Down(s, level) && Quiet(calls) && Get(s, AnswerText, Null) == Told(Unavailable)
  }

  /** What holds before each node when the breaker at `failing` is open. */
  predicate OutageInvariant(n: Node, s: State, calls: seq<Call>, failing: Node, level: Ladder) {
    && Quiet(calls)
    && (n != CheckCache ==> !Truthy(s, FromCache))
    && (if n == End then OutOfService(s, calls, level)
        else if n == GraphEnrich then false
        else if Rank(n) < Rank(failing) then Down(s, level)
        else if failing == Embed then ChunksOf(s) == []
        else !Truthy(s, Abstained))
  }

  predicate OutageStepped(n: Node, s: State, calls: seq<Call>, step: Step, failing: Node, level: Ladder) {
    match step
    case Raised(more) => Quiet(calls + more)
    case Updates(updates, more) => OutageInvariant(Next(n, s + updates), s + updates, calls + more, failing, level)
  }

  /** A node that touches none of the fields at stake, on either side of the open breaker. */
  lemma BystanderKeepsOutage(n: Node, s: State, calls: seq<Call>, step: Step, failing: Node, level: Ladder)
    requires failing == Embed || failing == Retrieve
    requires n == Supervisor || n == Scope || (n == Embed && failing == Retrieve)
    requires OutageInvariant(n, s, calls, failing, level)
    requires Quiet(step.calls)
    requires step.Updates? ==> step.updates.Keys <= Writes(n)
    requires step.Updates? && n == Embed ==> step.updates.Keys <= Writes(n) - {Abstained, DegradationLevel}
    ensures OutageStepped(n, s, calls, step, failing, level)
  {
    if step.Updates? {
      var writes := if n == Embed then Writes(n) - {Abstained, DegradationLevel} else Writes(n);
      KeepsField(s, step.updates, writes, FromCache);
      KeepsField(s, step.updates, writes, Abstained);
      KeepsField(s, step.updates, writes, DegradationLevel);
      KeepsField(s, step.updates, writes, RetrievedChunks);
    }
  }

  lemma CacheMissKeepsOutage(s: State, calls: seq<Call>, w: World, failing: Node, level: Ladder)
    requires (failing == Embed || failing == Retrieve) && w.cached.None?
    requires OutageInvariant(CheckCache, s, calls, failing, level)
    ensures OutageStepped(CheckCache, s, calls, NodeCheckCache(s, w), failing, level)
  {
    var step := NodeCheckCache(s, w);
    assert step.updates.Keys == {TimingsMs, FromCache};
    KeepsField(s, step.updates, {TimingsMs, FromCache}, Abstained);
    KeepsField(s, step.updates, {TimingsMs, FromCache}, RetrievedChunks);
    assert !Truthy(s + step.updates, FromCache);
  }

  lemma EmbedGoesDown(s: State, calls: seq<Call>, w: World)
    requires w.embed.CircuitOpen? && OutageInvariant(Embed, s, calls, Embed, L3)
    ensures OutageStepped(Embed, s, calls, NodeEmbed(s, w), Embed, L3)
  {
    var step := NodeEmbed(s, w);
    EmbedLeaves(s, w);
    KeepsField(s, step.updates, Writes(Embed), FromCache);
    KeepsField(s, step.updates, Writes(Embed), RetrievedChunks);
  }

  lemma RetrieveStaysDown(s: State, calls: seq<Call>, w: World)
    requires OutageInvariant(Retrieve, s, calls, Embed, L3)
    ensures OutageStepped(Retrieve, s, calls, NodeRetrieve(s, w), Embed, L3)
  {
    var step := NodeRetrieve(s, w);
    assert step.updates.Keys == {TimingsMs};
    KeepsField(s, step.updates, {TimingsMs}, FromCache);
    KeepsField(s, step.updates, {TimingsMs}, Abstained);
    KeepsField(s, step.updates, {TimingsMs}, DegradationLevel);
    KeepsField(s, step.updates, {TimingsMs}, RetrievedChunks);
  }

  lemma RetrieveGoesDown(s: State, calls: seq<Call>, w: World)
    requires w.retrieve.CircuitOpen? && OutageInvariant(Retrieve, s, calls, Retrieve, L4)
    ensures OutageStepped(Retrieve, s, calls, NodeRetrieve(s, w), Retrieve, L4)
  {
    var step := NodeRetrieve(s, w);
    assert calls + step.calls == calls;
    KeepsField(s, step.updates, Writes(Retrieve), FromCache);
    RetrieveDowns(s, w);
  }

  lemma RetrieveDowns(s: State, w: World)
    requires w.retrieve.CircuitOpen? && !Truthy(s, Abstained)
    ensures Down(s + NodeRetrieve(s, w).updates, L4)
  {
    var s' := s + NodeRetrieve(s, w).updates;
    assert s'[Abstained] == Flag(true) && s'[DegradationLevel] == Level(L4) && s'[RetrievedChunks] == Chunks([]);
  }

  /** Reranking nothing abstains again, whatever the reranker does. */
  lemma RerankStaysDown(s: State, calls: seq<Call>, w: World, failing: Node, level: Ladder)
    requires (failing == Embed || failing == Retrieve)
    requires OutageInvariant(Rerank, s, calls, failing, level)
    ensures OutageStepped(Rerank, s, calls, NodeRerank(s, w), failing, level)
  {
    var step := NodeRerank(s, w);
    RerankOfNothing(s, w, level);
    KeepsField(s, step.updates, Writes(Rerank), FromCache);
    var s' := s + step.updates;
    assert s'[Abstained] == Flag(true) && s'[RetrievedChunks] == Chunks([]) && s'[DegradationLevel] == Level(level);
  }

  lemma RerankOfNothing(s: State, w: World, level: Ladder)
    requires Down(s, level)
    ensures var step := NodeRerank(s, w);
            && step.Updates? && Quiet(step.calls) && step.updates.Keys <= Writes(Rerank)
            && Get(step.updates, Abstained, Null) == Flag(true)
            && Get(step.updates, RetrievedChunks, Null) == Chunks([])
            && Get(step.updates, DegradationLevel, Null) == Level(level)
  {
    assert Fallback([], w.topK) == ([], []);
    assert RerankOutcome([], w).Ok? ==> RerankOutcome([], w).value == ([], []);
    assert Truthy(s, DegradationLevel);
  }

  lemma AnswerWhenDown(s: State, w: World, level: Ladder)
    requires Down(s, level) && !Truthy(s, FromCache) && (level == L3 || level == L4)
    ensures NodeAnswer(s, w) == Updates(AnswerUpdates(s, Told(Unavailable), true, w), [])
  {
  }

  lemma AnswerIsUnavailable(s: State, calls: seq<Call>, step: Step, failing: Node, level: Ladder)
    requires OutageInvariant(AnswerNode, s, calls, failing, level) && Rank(failing) > Rank(AnswerNode)
    requires step.Updates? && step.calls == [] && step.updates.Keys <= Writes(AnswerNode)
    requires AnswerText in step.updates && step.updates[AnswerText] == Told(Unavailable)
    ensures OutageStepped(AnswerNode, s, calls, step, failing, level)
  {
    KeepsField(s, step.updates, Writes(AnswerNode), FromCache);
    KeepsField(s, step.updates, Writes(AnswerNode), Abstained);
    KeepsField(s, step.updates, Writes(AnswerNode), DegradationLevel);
    KeepsField(s, step.updates, Writes(AnswerNode), RetrievedChunks);
    assert calls + [] == calls;
  }

  lemma EmbedWritesVectors(s: State, w: World)
    requires w.embed.Ok?
    ensures NodeEmbed(s, w).updates.Keys <= Writes(Embed) - {Abstained, DegradationLevel}
  {
  }

  lemma StepKeepsOutage(n: Node, s: State, calls: seq<Call>, w: World, failing: Node, level: Ladder)
    requires w.cached.None?
    requires (failing, level) == (Embed, L3) || (failing, level) == (Retrieve, L4)
    requires if failing == Embed then w.embed.CircuitOpen? else !w.embed.CircuitOpen? && w.retrieve.CircuitOpen?
    requires n != End && OutageInvariant(n, s, calls, failing, level)
    ensures OutageStepped(n, s, calls, Perform(n, s, w), failing, level)
  {
    match n
    case CheckCache => CacheMissKeepsOutage(s, calls, w, failing, level);
    case Embed =>
      if failing == Embed {
        EmbedGoesDown(s, calls, w);
      } else {
        if w.embed.Ok? { EmbedWritesVectors(s, w); }
        BystanderKeepsOutage(n, s, calls, NodeEmbed(s, w), failing, level);
      }
    case Retrieve => if failing == Embed { RetrieveStaysDown(s, calls, w); } else { RetrieveGoesDown(s, calls, w); }
    case Rerank => RerankStaysDown(s, calls, w, failing, level);
    case AnswerNode =>
      AnswerWhenDown(s, w, level);
      AnswerIsUnavailable(s, calls, NodeAnswer(s, w), failing, level);
    case _ =>
      QuietUntilAnswer(n, s, w);
      NodesWriteTheirFields(n, s, w);
      BystanderKeepsOutage(n, s, calls, Perform(n, s, w), failing, level);
  }

  lemma RunKeepsOutage(initial: State, w: World, failing: Node, level: Ladder)
    requires w.cached.None?
    requires (failing, level) == (Embed, L3) || (failing, level) == (Retrieve, L4)
    requires if failing == Embed then w.embed.CircuitOpen? else !w.embed.CircuitOpen? && w.retrieve.CircuitOpen?
    requires if failing == Embed then ChunksOf(initial) == [] else !Truthy(initial, Abstained)
    ensures Quiet(Run(initial, w).calls)
    ensures Run(initial, w).Done? ==> OutOfService(Run(initial, w).state, Run(initial, w).calls, level)
  {
    var inv := (m, t, all) => OutageInvariant(m, t, all, failing, level);
    forall n, s, calls | n != End && inv(n, s, calls) ensures StepKeeps(BehaviourIn(w), inv, Quiet, n, s, calls) {
      StepKeepsOutage(n, s, calls, w, failing, level);
    }
    FollowKeeps(BehaviourIn(w), inv, Quiet, CheckCache, initial, []);
  }

  /** With the vector store's breaker open a run that misses the cache ends abstained at
      level L4 with nothing retrieved, whatever was in the state before and whatever the
      reranker does; the chat model is not asked and nothing is cached. */
  lemma OpenStoreAbstains(initial: State, w: World)
    requires w.cached.None? && !w.embed.CircuitOpen? && w.retrieve.CircuitOpen? && !Truthy(initial, Abstained)
    ensures Quiet(Run(initial, w).calls)
    ensures Run(initial, w).Done? ==> OutOfService(Run(initial, w).state, Run(initial, w).calls, L4)
  {
    RunKeepsOutage(initial, w, Retrieve, L4);
  }

  /** With the embedder's breaker open a run that starts without chunks ends abstained at
      level L3 in the same way. */
  lemma OpenEmbedderAbstains(initial: State, w: World)
    requires w.cached.None? && w.embed.CircuitOpen? && ChunksOf(initial) == []
    ensures Quiet(Run(initial, w).calls)
    ensures Run(initial, w).Done? ==> OutOfService(Run(initial, w).state, Run(initial, w).calls, L3)
  {
    RunKeepsOutage(initial, w, Embed, L3);
  }

  // ----- chunks that were there before -----

  predicate Asked(calls: seq<Call>) {
    exists i :: 0 <= i < |calls| && calls[i].CompleteCall?
  }

  /** Some reranker, open breaker included, would not abstain on these chunks.  A stub scores
      by what the chunks carry. */
  ghost predicate Revivable(chunks: seq<Chunk>, w: World) {
    && Take(chunks, w.topK) != []
    && (w.rerankerStub ==> exists c :: c in chunks && ScoreOr(c, 0.85) >= w.minScore)
  }

  predicate SupervisorFails(w: World) { w.supervisorRuns && w.supervise.Error? }

  /** Up to the reranker, with the embedder's breaker open: the chunks are the initial ones,
      and the run has abstained once the embedder was tried. */
  predicate Carried(n: Node, s: State, chunks: seq<Chunk>) {
    && ChunksOf(s) == chunks
    && (n != CheckCache ==> !Truthy(s, FromCache))
    && (n == Scope || n == Retrieve ==> Truthy(s, Abstained))
  }

  predicate CarriedOver(n: Node, s: State, step: Step, chunks: seq<Chunk>) {
    step.Updates? ==>
      var s' := s + step.updates;
      Rank(Next(n, s')) + 1 == Rank(n) && Carried(Next(n, s'), s', chunks)
  }

  lemma CacheMissCarries(s: State, w: World, chunks: seq<Chunk>)
    requires w.cached.None? && Carried(CheckCache, s, chunks)
    ensures CarriedOver(CheckCache, s, NodeCheckCache(s, w), chunks)
  {
    assert NodeCheckCache(s, w).updates.Keys == {TimingsMs, FromCache};
    KeepsField(s, NodeCheckCache(s, w).updates, {TimingsMs, FromCache}, RetrievedChunks);
  }

  lemma RetrieveCarries(s: State, w: World, chunks: seq<Chunk>)
    requires Carried(Retrieve, s, chunks)
    ensures CarriedOver(Retrieve, s, NodeRetrieve(s, w), chunks)
  {
    assert NodeRetrieve(s, w).updates.Keys == {TimingsMs};
    KeepsField(s, NodeRetrieve(s, w).updates, {TimingsMs}, FromCache);
    KeepsField(s, NodeRetrieve(s, w).updates, {TimingsMs}, RetrievedChunks);
  }

  lemma FrameCarries(n: Node, s: State, step: Step, chunks: seq<Chunk>)
    requires n == Supervisor || n == Embed || n == Scope
    requires Carried(n, s, chunks) && (step.Updates? ==> step.updates.Keys <= Writes(n))
    requires n == Embed && step.Updates? ==> Truthy(s + step.updates, Abstained)
    ensures CarriedOver(n, s, step, chunks)
  {
    if step.Updates? {
      KeepsField(s, step.updates, Writes(n), FromCache);
      if n != Embed { KeepsField(s, step.updates, Writes(n), Abstained); }
      KeepsField(s, step.updates, Writes(n), RetrievedChunks);
    }
  }

  /** Until the reranker a run carries its chunks on, or ends because the supervisor fails. */
  lemma CarriesOn(n: Node, s: State, w: World, chunks: seq<Chunk>)
    requires w.cached.None? && w.embed.CircuitOpen? && Rank(n) > Rank(Rerank) && Carried(n, s, chunks)
    ensures var step := Perform(n, s, w);
            && Quiet(step.calls) && CarriedOver(n, s, step, chunks)
            && (step.Raised? <==> n == Supervisor && SupervisorFails(w))
  {
    QuietUntilAnswer(n, s, w);
    match n
    case CheckCache => CacheMissCarries(s, w, chunks);
    case Retrieve => RetrieveCarries(s, w, chunks);
    case _ =>
      if n == Embed { EmbedLeaves(s, w); }
      NodesWriteTheirFields(n, s, w);
      FrameCarries(n, s, Perform(n, s, w), chunks);
  }

  // ----- a reranker that lifts the abstention -----

  predicate RevivalInvariant(n: Node, s: State, calls: seq<Call>, chunks: seq<Chunk>) {
    if n == End then Asked(calls)
    else if Rank(n) >= Rank(Rerank) then Carried(n, s, chunks)
    else !Truthy(s, FromCache) && !Truthy(s, Abstained)
  }

  predicate RevivalStepped(n: Node, s: State, calls: seq<Call>, step: Step, chunks: seq<Chunk>) {
    step.Updates? && RevivalInvariant(Next(n, s + step.updates), s + step.updates, calls + step.calls, chunks)
  }

  /** A world whose reranker scores every chunk at the threshold and whose other clients answer. */
  function Favourable(w: World, chunks: seq<Chunk>): World {
    w.(rerank := Ok(seq(|chunks|, _ => w.minScore)), enrich := Ok([]), complete := Ok(("", false)))
  }

  lemma FavourableScores(w: World, chunks: seq<Chunk>)
    requires Revivable(chunks, w)
    ensures !Abstains(Reranked(chunks, w.rerankerStub, Favourable(w, chunks).rerank.value, w.topK).1, w.minScore)
  {
    var predicted := Favourable(w, chunks).rerank.value;
    AbstainsIffAllBelow(chunks, w.rerankerStub, predicted, w.topK, w.minScore);
    if w.rerankerStub {
      var c :| c in chunks && ScoreOr(c, 0.85) >= w.minScore;
      var i :| 0 <= i < |chunks| && chunks[i] == c;
      assert OwnScore(chunks, true, predicted, i) >= w.minScore;
    } else {
      assert OwnScore(chunks, false, predicted, 0) == w.minScore;
    }
  }

  lemma RerankRevives(s: State, calls: seq<Call>, w: World, chunks: seq<Chunk>)
    requires Revivable(chunks, w) && RevivalInvariant(Rerank, s, calls, chunks)
    ensures RevivalStepped(Rerank, s, calls, NodeRerank(s, Favourable(w, chunks)), chunks)
  {
    var f := Favourable(w, chunks);
    FavourableScores(w, chunks);
    RerankDecides(s, f, chunks, false);
    DecidedRevives(s, calls, NodeRerank(s, f), chunks);
  }

  lemma DecidedRevives(s: State, calls: seq<Call>, step: Step, chunks: seq<Chunk>)
    requires RevivalInvariant(Rerank, s, calls, chunks)
    requires step.Updates? && step.updates.Keys <= Writes(Rerank) && !Truthy(s + step.updates, Abstained)
    ensures RevivalStepped(Rerank, s, calls, step, chunks)
  {
    KeepsField(s, step.updates, Writes(Rerank), FromCache);
  }

  /** The rerank node abstains as its outcome, or its fallback, says. */
  lemma RerankDecides(s: State, w: World, chunks: seq<Chunk>, abstains: bool)
    requires ChunksOf(s) == chunks
    requires RerankOutcome(chunks, w).Ok? ==> (Abstains(RerankOutcome(chunks, w).value.1, w.minScore) <==> abstains)
    requires RerankOutcome(chunks, w).CircuitOpen? ==> (Abstains(Fallback(chunks, w.topK).1, w.minScore) <==> abstains)
    ensures var step := NodeRerank(s, w);
            step.Updates? ==> && step.updates.Keys <= Writes(Rerank)
                              && (Truthy(s + step.updates, Abstained) <==> abstains)
  {
    NodesWriteTheirFields(Rerank, s, w);
    var step := NodeRerank(s, w);
    if step.Updates? { assert step.updates[Abstained] == Flag(abstains); }
  }

  lemma EnrichRevives(s: State, calls: seq<Call>, step: Step, chunks: seq<Chunk>)
    requires RevivalInvariant(GraphEnrich, s, calls, chunks)
    requires step.Updates? && step.updates.Keys <= Writes(GraphEnrich)
    ensures RevivalStepped(GraphEnrich, s, calls, step, chunks)
  {
    KeepsField(s, step.updates, Writes(GraphEnrich), FromCache);
    KeepsField(s, step.updates, Writes(GraphEnrich), Abstained);
  }

  lemma AnswerRevives(s: State, calls: seq<Call>, w: World, chunks: seq<Chunk>)
    requires w.complete.Ok? && RevivalInvariant(AnswerNode, s, calls, chunks)
    ensures RevivalStepped(AnswerNode, s, calls, NodeAnswer(s, w), chunks)
  {
    assert (calls + NodeAnswer(s, w).calls)[|calls|].CompleteCall?;
  }

  lemma StepRevives(n: Node, s: State, calls: seq<Call>, w: World, chunks: seq<Chunk>)
    requires w.cached.None? && w.embed.CircuitOpen? && !SupervisorFails(w) && Revivable(chunks, w)
    requires n != End && RevivalInvariant(n, s, calls, chunks)
    ensures RevivalStepped(n, s, calls, Perform(n, s, Favourable(w, chunks)), chunks)
  {
    var f := Favourable(w, chunks);
    match n
    case Rerank => RerankRevives(s, calls, w, chunks);
    case GraphEnrich =>
      NodesWriteTheirFields(GraphEnrich, s, f);
      EnrichRevives(s, calls, NodeGraphEnrich(s, f), chunks);
    case AnswerNode => AnswerRevives(s, calls, f, chunks);
    case _ => CarriesOn(n, s, f, chunks);
  }

  lemma GivenChunksRevive(initial: State, w: World)
    requires w.cached.None? && w.embed.CircuitOpen? && !SupervisorFails(w) && Revivable(ChunksOf(initial), w)
    ensures Asked(Run(initial, Favourable(w, ChunksOf(initial))).calls)
  {
    var chunks := ChunksOf(initial);
    var f := Favourable(w, chunks);
    var inv := (m, t, all) => RevivalInvariant(m, t, all, chunks);
    var never := all => false;
    forall n, s, calls | n != End && inv(n, s, calls) ensures StepKeeps(BehaviourIn(f), inv, never, n, s, calls) {
      StepRevives(n, s, calls, w, chunks);
    }
    FollowKeeps(BehaviourIn(f), inv, never, CheckCache, initial, []);
  }

  // ----- and one that cannot -----

  predicate SurvivalInvariant(n: Node, s: State, calls: seq<Call>, w: World, chunks: seq<Chunk>) {
    && Quiet(calls)
    && (SupervisorFails(w) ==> Rank(n) >= Rank(Supervisor))
    && (if Rank(n) >= Rank(Rerank) then Carried(n, s, chunks)
        else if n == AnswerNode then !Truthy(s, FromCache) && Truthy(s, Abstained)
        else n == End)
  }

  predicate SurvivalStepped(n: Node, s: State, calls: seq<Call>, step: Step, w: World, chunks: seq<Chunk>) {
    match step
    case Raised(more) => Quiet(calls + more)
    case Updates(updates, more) => SurvivalInvariant(Next(n, s + updates), s + updates, calls + more, w, chunks)
  }

  /** Whatever the reranker does with chunks that cannot be revived, the run abstains. */
  lemma OutcomeAbstains(w: World, chunks: seq<Chunk>)
    requires !Revivable(chunks, w)
    ensures RerankOutcome(chunks, w).Ok? ==> Abstains(RerankOutcome(chunks, w).value.1, w.minScore)
    ensures Abstains(Fallback(chunks, w.topK).1, w.minScore)
  {
    var predicted := if w.rerank.Ok? then w.rerank.value else [];
    AbstainsIffAllBelow(chunks, w.rerankerStub, predicted, w.topK, w.minScore);
    AbstainsIffAllBelow(chunks, w.rerankerStub, [], w.topK, w.minScore);
    FallbackAbstainsIff(chunks, w.topK, w.minScore);
    if Take(chunks, w.topK) != [] {
      forall c | c in chunks ensures ScoreOr(c, 0.0) <= ScoreOr(c, 0.85) < w.minScore {}
      forall i | 0 <= i < |chunks| ensures OwnScore(chunks, true, predicted, i) < w.minScore {
        assert chunks[i] in chunks;
      }
      forall i | 0 <= i < |chunks| ensures OwnScore(chunks, true, [], i) < w.minScore { assert chunks[i] in chunks; }
    }
  }

  lemma RerankSurvives(s: State, calls: seq<Call>, w: World, chunks: seq<Chunk>)
    requires !SupervisorFails(w) && !Revivable(chunks, w) && SurvivalInvariant(Rerank, s, calls, w, chunks)
    ensures SurvivalStepped(Rerank, s, calls, NodeRerank(s, w), w, chunks)
  {
    OutcomeAbstains(w, chunks);
    QuietUntilAnswer(Rerank, s, w);
    RerankDecides(s, w, chunks, true);
    DecidedSurvives(s, calls, NodeRerank(s, w), w, chunks);
  }

  lemma DecidedSurvives(s: State, calls: seq<Call>, step: Step, w: World, chunks: seq<Chunk>)
    requires !SupervisorFails(w) && SurvivalInvariant(Rerank, s, calls, w, chunks) && Quiet(step.calls)
    requires step.Updates? ==> step.updates.Keys <= Writes(Rerank) && Truthy(s + step.updates, Abstained)
    ensures SurvivalStepped(Rerank, s, calls, step, w, chunks)
  {
    if step.Updates? { KeepsField(s, step.updates, Writes(Rerank), FromCache); }
  }

  lemma AnswerSurvives(s: State, calls: seq<Call>, w: World, chunks: seq<Chunk>)
    requires SurvivalInvariant(AnswerNode, s, calls, w, chunks)
    ensures SurvivalStepped(AnswerNode, s, calls, NodeAnswer(s, w), w, chunks)
  {
    assert NodeAnswer(s, w).Updates? && NodeAnswer(s, w).calls == [];
    assert calls + [] == calls;
  }

  lemma StepSurvives(n: Node, s: State, calls: seq<Call>, w: World, chunks: seq<Chunk>)
    requires w.cached.None? && w.embed.CircuitOpen? && (SupervisorFails(w) || !Revivable(chunks, w))
    requires n != End && SurvivalInvariant(n, s, calls, w, chunks)
    ensures SurvivalStepped(n, s, calls, Perform(n, s, w), w, chunks)
  {
    match n
    case Rerank => RerankSurvives(s, calls, w, chunks);
    case AnswerNode => AnswerSurvives(s, calls, w, chunks);
    case _ => CarriesOn(n, s, w, chunks);
  }

  lemma GivenChunksDoNotRevive(initial: State, w: World)
    requires w.cached.None? && w.embed.CircuitOpen? && (SupervisorFails(w) || !Revivable(ChunksOf(initial), w))
    ensures Quiet(Run(initial, w).calls)
  {
    var chunks := ChunksOf(initial);
    var inv := (m, t, all) => SurvivalInvariant(m, t, all, w, chunks);
    forall n, s, calls | n != End && inv(n, s, calls) ensures StepKeeps(BehaviourIn(w), inv, Quiet, n, s, calls) {
      StepSurvives(n, s, calls, w, chunks);
    }
    FollowKeeps(BehaviourIn(w), inv, Quiet, CheckCache, initial, []);
  }

  /** No matter how the reranker, the graph store and the chat model behave. */
  ghost predicate NeverAsks(initial: State, w: World) {
    forall rerank, enrich, complete ::
      !Asked(Run(initial, w.(rerank := rerank, enrich := enrich, complete := complete)).calls)
  }

  /** With the embedder's breaker open the abstention outlasts every reranker exactly when
      the supervisor fails first, or no reranker would be content with the chunks the run
      starts with; with none to start with it always does. */
  lemma EmbedderAbstentionSurvivesIff(initial: State, w: World)
    requires w.cached.None? && w.embed.CircuitOpen?
    ensures NeverAsks(initial, w) <==> SupervisorFails(w) || !Revivable(ChunksOf(initial), w)
    ensures ChunksOf(initial) == [] ==> !Revivable(ChunksOf(initial), w)
  {
    if SupervisorFails(w) || !Revivable(ChunksOf(initial), w) {
      forall rerank, enrich, complete
        ensures !Asked(Run(initial, w.(rerank := rerank, enrich := enrich, complete := complete)).calls)
      {
        GivenChunksDoNotRevive(initial, w.(rerank := rerank, enrich := enrich, complete := complete));
      }
    } else {
      GivenChunksRevive(initial, w);
      var f := Favourable(w, ChunksOf(initial));
      assert f == w.(rerank := f.rerank, enrich := f.enrich, complete := f.complete);
    }
  }
}
