/** The pipeline's state, its graph (query/app/rag_graph.py) and the hand-written runner
    used for streaming (query/app/rag_runner.py), for nodes that behave in any way at all. */
module PipelineGraph {
  import opened Options
  import opened Reranking

  // ----- state: a dictionary, updated by partial dictionaries -----

  datatype Field =
    | Query | TenantId | CollectionId | AdditionalCollectionIds | DocumentId | VersionId | SessionId
    | ExplicitScope | SkipSupervisor | ScopeSource | InferenceScore | OriginalQuery | VisualIntent
    | DenseVector | SparseVector | RetrievedChunks | RerankScores | ContextBlocks
    | FromCache | Abstained | GraphEnrichEnabled | DegradationLevel
    | AnswerText | Sources | Stub | TimingsMs

  datatype Source = Source(collection: string, document: string, score: Option<real>)

  /** The degrade ladder. */
  datatype Ladder = L1 | L2 | L3 | L4

  /** The two things a run says when it has no answer: that it is temporarily unable to search,
      or that it found too little to answer confidently. */
  datatype Notice = Unavailable | NotConfident

  datatype Value =
    | Null | Level(level: Ladder) | Flag(on: bool) | Text(s: string) | Told(notice: Notice) | Texts(ss: seq<string>)
    | Number(x: real) | Vector(id: int)
    | Chunks(cs: seq<Chunk>) | Scores(xs: seq<real>) | Cites(sources: seq<Source>) | Timings(ms: map<Node, int>)

  type State = map<Field, Value>

  /** Python's truth of state.get(key). */
  predicate Truthy(s: State, key: Field) {
    key in s && match s[key]
      case Null => false
      case Flag(b) => b
      case Text(t) => t != ""
      case Told(_) => true
      case Texts(ts) => ts != []
      case Number(x) => x != 0.0
      case Vector(_) => true
      case Level(_) => true
      case Chunks(cs) => cs != []
      case Scores(xs) => xs != []
      case Cites(c) => c != []
      case Timings(ms) => ms != map[]
  }

  predicate Missing(s: State, key: Field) { key !in s || s[key].Null? }

  function ChunksOf(s: State): seq<Chunk> {
    if RetrievedChunks in s && s[RetrievedChunks].Chunks? then s[RetrievedChunks].cs else []
  }

  function Get(s: State, key: Field, default: Value): Value {
    if key in s then s[key] else default
  }

  // ----- nodes -----

  datatype Node = CheckCache | Supervisor | Embed | Scope | Retrieve | Rerank | GraphEnrich | AnswerNode | End

  datatype Answer = Answer(text: string, sources: seq<Source>, stub: bool)

  /** A call to a client or to the cache, with what it was given. */
  datatype Call =
    | CacheGet(given: State)
    | SuperviseCall(given: State)
    | EmbedCall(query: Value)
    | RetrieveCall(given: State)
    | RerankCall(query: Value, chunks: seq<Chunk>)
    | EnrichCall(given: State)
    | CompleteCall(given: State)
    | CacheSet(given: State, answer: Answer)

  /** A node's partial dictionary and its calls, or the calls made before it raised. */
  datatype Step = Updates(updates: State, calls: seq<Call>) | Raised(calls: seq<Call>)

  type Behaviour = (Node, State) -> Step

  // ----- the graph -----

  /** The edges, two of them conditional. */
  function Next(n: Node, s: State): Node {
    match n
    case CheckCache => if Truthy(s, FromCache) then AnswerNode else Supervisor
    case Supervisor => Embed
    case Embed => Scope
    case Scope => Retrieve
    case Retrieve => Rerank
    case Rerank => if Truthy(s, Abstained) then AnswerNode else GraphEnrich
    case GraphEnrich => AnswerNode
    case AnswerNode => End
    case End => End
  }

  function Rank(n: Node): nat {
    match n
    case CheckCache => 8 case Supervisor => 7 case Embed => 6 case Scope => 5 case Retrieve => 4
    case Rerank => 3 case GraphEnrich => 2 case AnswerNode => 1 case End => 0
  }

  datatype Result = Done(state: State, calls: seq<Call>) | Failed(calls: seq<Call>)

  /** Follow the edges from node n. */
  function Follow(n: Node, s: State, calls: seq<Call>, perform: Behaviour): Result
    decreases Rank(n)
  {
    if n == End then Done(s, calls)
    else
      match perform(n, s)
      case Raised(more) => Failed(calls + more)
      case Updates(updates, more) => Follow(Next(n, s + updates), s + updates, calls + more, perform)
  }

  function RunGraph(initial: State, perform: Behaviour): Result {
    Follow(CheckCache, initial, [], perform)
  }

  /** An invariant of every node, with what it gives for failures, holds of every run.
      At `End` it is a statement about final states. */
  lemma {:induction false} FollowKeeps(perform: Behaviour, inv: (Node, State, seq<Call>) -> bool,
                                       failed: seq<Call> -> bool,
                                       n: Node, s: State, calls: seq<Call>)
    requires inv(n, s, calls)
    requires forall m, t, before :: m != End && inv(m, t, before) ==> StepKeeps(perform, inv, failed, m, t, before)
    ensures match Follow(n, s, calls, perform)
      case Failed(all) => failed(all)
      case Done(final, all) => inv(End, final, all)
    decreases Rank(n)
  {
    if n != End {
      assert StepKeeps(perform, inv, failed, n, s, calls);
      match perform(n, s)
      case Raised(_) =>
      case Updates(updates, more) =>
        FollowKeeps(perform, inv, failed, Next(n, s + updates), s + updates, calls + more);
    }
  }

  ghost predicate StepKeeps(perform: Behaviour, inv: (Node, State, seq<Call>) -> bool, failed: seq<Call> -> bool,
                            n: Node, s: State, calls: seq<Call>)
  {
    match perform(n, s)
    case Raised(more) => failed(calls + more)
    case Updates(updates, more) => inv(Next(n, s + updates), s + updates, calls + more)
  }

  // ----- the runner -----

  const MIDDLE_STAGES: seq<Node> := [Supervisor, Embed, Scope, Retrieve, Rerank]

  /** advance_to_answer.  Whatever the state and however the nodes behave, finishing with
      the answer node gives what the graph gives: the same state by the same calls, or
      the same failure. */
  method AdvanceToAnswer(initial: State, perform: Behaviour) returns (r: Result)
    ensures r.Failed? ==> RunGraph(initial, perform) == r
    ensures r.Done? ==> RunGraph(initial, perform) == Follow(AnswerNode, r.state, r.calls, perform)
  {
    var first := perform(CheckCache, initial);
    if first.Raised? { return Failed([] + first.calls); }
    var s, calls := initial + first.updates, [] + first.calls;
    if Truthy(s, FromCache) { return Done(s, calls); }
    var i := 0;
    while i < |MIDDLE_STAGES|
      invariant 0 <= i <= |MIDDLE_STAGES|
      invariant RunGraph(initial, perform)
             == Follow(if i < |MIDDLE_STAGES| then MIDDLE_STAGES[i] else Next(Rerank, s), s, calls, perform)
    {
      var step := perform(MIDDLE_STAGES[i], s);
      if step.Raised? { return Failed(calls + step.calls); }
      s, calls := s + step.updates, calls + step.calls;
      i := i + 1;
    }
    if Truthy(s, Abstained) { return Done(s, calls); }
    var last := perform(GraphEnrich, s);
    if last.Raised? { return Failed(calls + last.calls); }
    return Done(s + last.updates, calls + last.calls);
  }
}
