/** Whom a run of the retrieval pipeline (query/app/rag_graph.py) asks, in order. */
module RagCalls {
  import opened Options
  import opened PipelineGraph
  import opened RagPipeline
  import RagEnds

  datatype Client = CacheLookup | SupervisorModel | Embedder | VectorStore | RerankModel | GraphStore | ChatModel
                  | CacheStore

  function ClientOf(c: Call): Client {
    match c
    case CacheGet(_) => CacheLookup
    case SuperviseCall(_) => SupervisorModel
    case EmbedCall(_) => Embedder
    case RetrieveCall(_) => VectorStore
    case RerankCall(_, _) => RerankModel
    case EnrichCall(_) => GraphStore
    case CompleteCall(_) => ChatModel
    case CacheSet(_, _) => CacheStore
  }

  function Asked(calls: seq<Call>): (clients: seq<Client>)
    ensures |clients| == |calls| && forall i :: 0 <= i < |calls| ==> clients[i] == ClientOf(calls[i])
  {
    seq(|calls|, i requires 0 <= i < |calls| => ClientOf(calls[i]))
  }

  /** The client is asked if the condition holds. */
  function If(asks: bool, client: Client): seq<Client> { if asks then [client] else [] }

  predicate GraphWanted(s: State) { GraphEnrichEnabled in s ==> Truthy(s, GraphEnrichEnabled) }

  /** There is nothing to search with: the run has abstained, or the embedder's breaker is open. */
  predicate Unsearchable(initial: State, w: World) { Truthy(initial, Abstained) || w.embed.CircuitOpen? }

  /** Whom a node asks in a run that misses the cache: its client, unless that one's breaker is
      open or the node is skipped. */
  function AsksAt(n: Node, abstained: bool, initial: State, w: World): seq<Client> {
    match n
    case CheckCache => [CacheLookup]
    case Supervisor => If(w.supervisorRuns && !w.supervise.CircuitOpen?, SupervisorModel)
    case Embed => If(!w.embed.CircuitOpen?, Embedder)
    case Scope => []
    case Retrieve => If(!Unsearchable(initial, w) && !w.retrieve.CircuitOpen?, VectorStore)
    case Rerank => If(!w.rerank.CircuitOpen?, RerankModel)
    case GraphEnrich => If(!abstained && GraphWanted(initial) && !w.enrich.CircuitOpen?, GraphStore)
    case AnswerNode => if abstained || w.complete.CircuitOpen? then [] else [ChatModel, CacheStore]
    case End => []
  }

  /** Whom a finished run that misses the cache has asked, by whether it abstained in the end. */
  function AsksOf(abstained: bool, initial: State, w: World): seq<Client> {
    [CacheLookup]
    + If(w.supervisorRuns && !w.supervise.CircuitOpen?, SupervisorModel)
    + If(!w.embed.CircuitOpen?, Embedder)
    + If(!Unsearchable(initial, w) && !w.retrieve.CircuitOpen?, VectorStore)
    + If(!w.rerank.CircuitOpen?, RerankModel)
    + If(!abstained && GraphWanted(initial) && !w.enrich.CircuitOpen?, GraphStore)
    + If(!abstained && !w.complete.CircuitOpen?, ChatModel)
    + If(!abstained && !w.complete.CircuitOpen?, CacheStore)
  }

  /** Whom the nodes before this one ask. */
  function AsksBefore(n: Node, abstained: bool, initial: State, w: World): seq<Client>
    decreases 8 - Rank(n)
  {
    match n
    case CheckCache => []
    case Supervisor => AsksBefore(CheckCache, abstained, initial, w) + AsksAt(CheckCache, abstained, initial, w)
    case Embed => AsksBefore(Supervisor, abstained, initial, w) + AsksAt(Supervisor, abstained, initial, w)
    case Scope => AsksBefore(Embed, abstained, initial, w) + AsksAt(Embed, abstained, initial, w)
    case Retrieve => AsksBefore(Scope, abstained, initial, w) + AsksAt(Scope, abstained, initial, w)
    case Rerank => AsksBefore(Retrieve, abstained, initial, w) + AsksAt(Retrieve, abstained, initial, w)
    case GraphEnrich => AsksBefore(Rerank, abstained, initial, w) + AsksAt(Rerank, abstained, initial, w)
    case AnswerNode => AsksBefore(GraphEnrich, abstained, initial, w) + AsksAt(GraphEnrich, abstained, initial, w)
    case End => AsksBefore(AnswerNode, abstained, initial, w) + AsksAt(AnswerNode, abstained, initial, w)
  }

  lemma AsksInAll(abstained: bool, initial: State, w: World)
    ensures AsksBefore(End, abstained, initial, w) == AsksOf(abstained, initial, w)
  {
    AsksToSearch(abstained, initial, w);
    assert AsksBefore(AnswerNode, abstained, initial, w) ==
           AsksBefore(Rerank, abstained, initial, w) + AsksAt(Rerank, abstained, initial, w)
           + AsksAt(GraphEnrich, abstained, initial, w);
  }

  lemma AsksToSearch(abstained: bool, initial: State, w: World)
    ensures AsksBefore(Rerank, abstained, initial, w) ==
            [CacheLookup]
            + If(w.supervisorRuns && !w.supervise.CircuitOpen?, SupervisorModel)
            + If(!w.embed.CircuitOpen?, Embedder)
            + If(!Unsearchable(initial, w) && !w.retrieve.CircuitOpen?, VectorStore)
  {
  }

  /** Up to the reranker nobody is asked by whether the run abstains in the end. */
  lemma AsksSame(n: Node, a: bool, b: bool, initial: State, w: World)
    requires Rank(n) >= Rank(GraphEnrich)
    ensures AsksBefore(n, a, initial, w) == AsksBefore(n, b, initial, w)
  {
  }

  /** What the invariant says of the state alone. */
  predicate Poised(n: Node, s: State, initial: State, w: World) {
    && (Rank(n) >= Rank(GraphEnrich) ==> (GraphWanted(s) <==> GraphWanted(initial)))
    && (Rank(n) >= Rank(Embed) ==> (Truthy(s, Abstained) <==> Truthy(initial, Abstained)))
    && (n == Scope || n == Retrieve ==>
          (Truthy(s, Abstained) <==> Unsearchable(initial, w)) && (HasVectors(s) || Truthy(s, Abstained)))
    && (n == GraphEnrich ==> !Truthy(s, Abstained))
  }

  predicate AskedAt(n: Node, s: State, calls: seq<Call>, initial: State, w: World) {
    && Asked(calls) == AsksBefore(n, Truthy(s, Abstained), initial, w)
    && (n != CheckCache && n != End ==> !Truthy(s, FromCache))
    && Poised(n, s, initial, w)
  }

  predicate AskStepped(n: Node, s: State, calls: seq<Call>, step: Step, initial: State, w: World) {
    step.Updates? ==> AskedAt(Next(n, s + step.updates), s + step.updates, calls + step.calls, initial, w)
  }

  lemma AskedMore(calls: seq<Call>, more: seq<Call>)
    ensures Asked(calls + more) == Asked(calls) + Asked(more)
  {
  }

  /** The node that follows one in the graph's order. */
  function Successor(n: Node): Node {
    match n
    case CheckCache => Supervisor
    case Supervisor => Embed
    case Embed => Scope
    case Scope => Retrieve
    case Retrieve => Rerank
    case Rerank => GraphEnrich
    case GraphEnrich => AnswerNode
    case AnswerNode => End
    case End => End
  }

  lemma AsksThrough(n: Node, s: State, abstained: bool, initial: State, w: World)
    requires n != End && (n == CheckCache ==> !Truthy(s, FromCache))
    ensures AsksBefore(Successor(n), abstained, initial, w) ==
            AsksBefore(n, abstained, initial, w) + AsksAt(n, abstained, initial, w)
    ensures Next(n, s) == Successor(n) || (n == Rerank && Truthy(s, Abstained) && Next(n, s) == AnswerNode)
    ensures n == Rerank && abstained ==>
              AsksBefore(AnswerNode, abstained, initial, w) == AsksBefore(GraphEnrich, abstained, initial, w)
  {
  }

  lemma EarlyNodeAsks(n: Node, s: State, initial: State, w: World)
    requires w.cached.None? && Rank(n) >= Rank(Scope) && Perform(n, s, w).Updates?
    ensures Asked(Perform(n, s, w).calls) == AsksAt(n, Truthy(s, Abstained), initial, w)
  {
  }

  lemma RetrieveAsks(s: State, initial: State, w: World)
    requires NodeRetrieve(s, w).Updates? && (Truthy(s, Abstained) <==> Unsearchable(initial, w))
    requires HasVectors(s) || Truthy(s, Abstained)
    ensures Asked(NodeRetrieve(s, w).calls) == AsksAt(Retrieve, Truthy(s, Abstained), initial, w)
  {
    RetrieveEmbeds(s, w);
  }

  lemma RerankAsks(s: State, initial: State, w: World)
    requires NodeRerank(s, w).Updates?
    ensures Asked(NodeRerank(s, w).calls) == AsksAt(Rerank, Truthy(s, Abstained), initial, w)
  {
  }

  lemma GraphAsks(s: State, initial: State, w: World)
    requires NodeGraphEnrich(s, w).Updates? && (GraphWanted(s) <==> GraphWanted(initial))
    ensures Asked(NodeGraphEnrich(s, w).calls) == AsksAt(GraphEnrich, Truthy(s, Abstained), initial, w)
  {
  }

  lemma AnswerAsks(s: State, initial: State, w: World)
    requires NodeAnswer(s, w).Updates? && !Truthy(s, FromCache)
    ensures Asked(NodeAnswer(s, w).calls) == AsksAt(AnswerNode, Truthy(s, Abstained), initial, w)
  {
  }

  lemma NodeAsks(n: Node, s: State, calls: seq<Call>, initial: State, w: World)
    requires w.cached.None? && n != End && AskedAt(n, s, calls, initial, w) && Perform(n, s, w).Updates?
    ensures Asked(Perform(n, s, w).calls) == AsksAt(n, Truthy(s, Abstained), initial, w)
  {
    match n
    case Retrieve => RetrieveAsks(s, initial, w);
    case Rerank => RerankAsks(s, initial, w);
    case GraphEnrich => GraphAsks(s, initial, w);
    case AnswerNode => AnswerAsks(s, initial, w);
    case _ => EarlyNodeAsks(n, s, initial, w);
  }

  /** What the embedder's outcome makes of the run. */
  lemma EmbedDecides(s: State, initial: State, w: World)
    requires NodeEmbed(s, w).Updates? && (Truthy(s, Abstained) <==> Truthy(initial, Abstained))
    ensures Truthy(s + NodeEmbed(s, w).updates, Abstained) <==> Unsearchable(initial, w)
    ensures HasVectors(s + NodeEmbed(s, w).updates) || Truthy(s + NodeEmbed(s, w).updates, Abstained)
  {
    EmbedLeaves(s, w);
  }

  lemma BystanderStaysPoised(n: Node, s: State, updates: State, initial: State, w: World)
    requires n != End && n != Embed && Poised(n, s, initial, w) && updates.Keys <= Writes(n)
    requires n == CheckCache ==> !Truthy(s + updates, FromCache)
    ensures Poised(Next(n, s + updates), s + updates, initial, w)
  {
    if Rank(n) > Rank(GraphEnrich) { KeepsField(s, updates, Writes(n), GraphEnrichEnabled); }
    if Rank(n) > Rank(Retrieve) {
      KeepsField(s, updates, Writes(n), Abstained);
      KeepsField(s, updates, Writes(n), DenseVector);
      KeepsField(s, updates, Writes(n), SparseVector);
    }
    PoisedOnward(n, s, s + updates, initial, w);
  }

  lemma PoisedOnward(n: Node, s: State, s': State, initial: State, w: World)
    requires n != End && n != Embed && Poised(n, s, initial, w) && (n == CheckCache ==> !Truthy(s', FromCache))
    requires Rank(n) > Rank(GraphEnrich) ==> (GraphWanted(s') <==> GraphWanted(s))
    requires Rank(n) > Rank(Retrieve) ==>
               (Truthy(s', Abstained) <==> Truthy(s, Abstained)) && (HasVectors(s') <==> HasVectors(s))
    ensures Poised(Next(n, s'), s', initial, w)
  {
  }

  lemma StaysPoised(n: Node, s: State, initial: State, w: World)
    requires w.cached.None? && n != End && Poised(n, s, initial, w) && Perform(n, s, w).Updates?
    requires n == CheckCache ==> !Truthy(s + Perform(n, s, w).updates, FromCache)
    ensures var s' := s + Perform(n, s, w).updates; Poised(Next(n, s'), s', initial, w)
  {
    NodesWriteTheirFields(n, s, w);
    if n == Embed {
      EmbedDecides(s, initial, w);
      KeepsField(s, NodeEmbed(s, w).updates, Writes(Embed), GraphEnrichEnabled);
    } else {
      BystanderStaysPoised(n, s, Perform(n, s, w).updates, initial, w);
    }
  }

  lemma AbstentionKept(n: Node, s: State, w: World)
    requires Rank(n) <= Rank(GraphEnrich) && n != End && Perform(n, s, w).Updates?
    ensures Truthy(s + Perform(n, s, w).updates, Abstained) <==> Truthy(s, Abstained)
  {
    NodesWriteTheirFields(n, s, w);
    KeepsField(s, Perform(n, s, w).updates, Writes(n), Abstained);
  }

  /** The calls of one more node are those that belong before the next one. */
  lemma AsksAfter(n: Node, s: State, calls: seq<Call>, step: Step, initial: State, w: World)
    requires n != End && step.Updates? && !Truthy(s + step.updates, FromCache)
    requires Asked(calls) == AsksBefore(n, Truthy(s, Abstained), initial, w)
    requires Asked(step.calls) == AsksAt(n, Truthy(s, Abstained), initial, w)
    requires Rank(n) <= Rank(GraphEnrich) ==> (Truthy(s + step.updates, Abstained) <==> Truthy(s, Abstained))
    ensures var s' := s + step.updates;
            Asked(calls + step.calls) == AsksBefore(Next(n, s'), Truthy(s', Abstained), initial, w)
  {
    var s' := s + step.updates;
    AskedMore(calls, step.calls);
    AsksThrough(n, s', Truthy(s, Abstained), initial, w);
    AsksThrough(n, s', Truthy(s', Abstained), initial, w);
    if Rank(n) > Rank(GraphEnrich) {
      AsksSame(Successor(n), Truthy(s, Abstained), Truthy(s', Abstained), initial, w);
    }
  }

  lemma StepAsks(n: Node, s: State, calls: seq<Call>, initial: State, w: World)
    requires w.cached.None? && n != End && AskedAt(n, s, calls, initial, w)
    ensures AskStepped(n, s, calls, Perform(n, s, w), initial, w)
  {
    if Perform(n, s, w).Updates? {
      RagEnds.StaysUncached(n, s, w);
      NodeAsks(n, s, calls, initial, w);
      if Rank(n) <= Rank(GraphEnrich) { AbstentionKept(n, s, w); }
      AsksAfter(n, s, calls, Perform(n, s, w), initial, w);
      StaysPoised(n, s, initial, w);
    }
  }

  lemma {:induction false} FollowAsks(n: Node, s: State, calls: seq<Call>, initial: State, w: World, r: Result)
    requires w.cached.None? && AskedAt(n, s, calls, initial, w) && r == Follow(n, s, calls, BehaviourIn(w))
    ensures r.Done? ==> Asked(r.calls) == AsksBefore(End, Truthy(r.state, Abstained), initial, w)
    decreases Rank(n), 1
  {
    if n != End {
      StepAsks(n, s, calls, initial, w);
      FollowOnward(n, s, calls, w, Perform(n, s, w), r);
      AsksOnward(n, s, calls, Perform(n, s, w), initial, w, r);
    }
  }

  lemma {:induction false} AsksOnward(n: Node, s: State, calls: seq<Call>, step: Step, initial: State, w: World,
                                      r: Result)
    requires w.cached.None? && n != End && AskStepped(n, s, calls, step, initial, w)
    requires if step.Raised? then r.Failed? else
               r == Follow(Next(n, s + step.updates), s + step.updates, calls + step.calls, BehaviourIn(w))
    ensures r.Done? ==> Asked(r.calls) == AsksBefore(End, Truthy(r.state, Abstained), initial, w)
    decreases Rank(n), 0
  {
    if step.Updates? {
      FollowAsks(Next(n, s + step.updates), s + step.updates, calls + step.calls, initial, w, r);
    }
  }

  /** A run that misses the cache and gets to its end has asked each client whose breaker was
      closed, once and in order, save that an abstained one is not searched for, and gets
      neither a graph nor an answer; nor does anybody who did not want it get the graph. */
  lemma RunAsks(initial: State, w: World, r: Result)
    requires w.cached.None? && r == Run(initial, w) && r.Done?
    ensures Asked(r.calls) == AsksOf(Truthy(r.state, Abstained), initial, w)
  {
    FollowAsks(CheckCache, initial, [], initial, w, r);
    AsksInAll(Truthy(r.state, Abstained), initial, w);
  }
}
