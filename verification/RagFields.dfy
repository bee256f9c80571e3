/** More of what runs of the retrieval pipeline (query/app/rag_graph.py) leave in their state:
    a cached answer, the scope that was searched, and the time each stage took. */
module RagFields {
  import opened Options
  import opened Reranking
  import opened PipelineGraph
  import opened RagPipeline

  // ----- a cached answer -----

  /** A run that finds its answer cached asks nobody anything else, carries that answer with its
      sources, and leaves every other field as it was. */
  lemma CachedRun(initial: State, w: World)
    requires w.cached.Some?
    ensures Run(initial, w).Done? && Run(initial, w).calls == [CacheGet(initial)]
    ensures var s, a := Run(initial, w).state, w.cached.value;
            && Get(s, AnswerText, Null) == Text(a.text) && Get(s, Sources, Null) == Cites(a.sources)
            && Get(s, Stub, Null) == Flag(a.stub) && Truthy(s, FromCache)
            && forall f :: f !in {AnswerText, Sources, Stub, FromCache, TimingsMs} ==>
                 (f in s <==> f in initial) && (f in initial ==> s[f] == initial[f])
  {
    var updates := NodeCheckCache(initial, w).updates;
    HitWrites(initial, w);
    HitReads(initial, updates, w.cached.value);
    HitGoesThrough(initial, initial + updates, w);
  }

  lemma HitWrites(s: State, w: World)
    requires w.cached.Some?
    ensures var updates, a := NodeCheckCache(s, w).updates, w.cached.value;
            && updates.Keys == {AnswerText, Sources, Stub, FromCache, TimingsMs}
            && updates[AnswerText] == Text(a.text) && updates[Sources] == Cites(a.sources)
            && updates[Stub] == Flag(a.stub) && updates[FromCache] == Flag(true)
  {
  }

  lemma HitReads(initial: State, updates: State, a: Answer)
    requires updates.Keys == {AnswerText, Sources, Stub, FromCache, TimingsMs}
    requires updates[AnswerText] == Text(a.text) && updates[Sources] == Cites(a.sources)
    requires updates[Stub] == Flag(a.stub) && updates[FromCache] == Flag(true)
    ensures var s := initial + updates;
            && Get(s, AnswerText, Null) == Text(a.text) && Get(s, Sources, Null) == Cites(a.sources)
            && Get(s, Stub, Null) == Flag(a.stub) && Truthy(s, FromCache)
            && forall f :: f !in {AnswerText, Sources, Stub, FromCache, TimingsMs} ==>
                 (f in s <==> f in initial) && (f in initial ==> s[f] == initial[f])
  {
  }

  lemma HitGoesThrough(initial: State, s: State, w: World)
    requires w.cached.Some? && s == initial + NodeCheckCache(initial, w).updates && Truthy(s, FromCache)
    ensures Run(initial, w) == Done(s, [CacheGet(initial)])
  {
    var perform := BehaviourIn(w);
    assert perform(CheckCache, initial) == NodeCheckCache(initial, w);
    assert [] + NodeCheckCache(initial, w).calls == [CacheGet(initial)];
    assert Follow(CheckCache, initial, [], perform) == Follow(AnswerNode, s, [CacheGet(initial)], perform);
    assert perform(AnswerNode, s) == Updates(map[], []);
    assert s + map[] == s && [CacheGet(initial)] + [] == [CacheGet(initial)];
    assert Follow(AnswerNode, s, [CacheGet(initial)], perform) == Follow(End, s, [CacheGet(initial)], perform);
  }

  // ----- the time each stage took -----

  function MsOf(s: State): map<Node, int> {
    if TimingsMs in s && s[TimingsMs].Timings? then s[TimingsMs].ms else map[]
  }

  function Elapsed(n: Node, w: World): int {
    if n in w.elapsed then w.elapsed[n] else 0
  }

  predicate TimedAt(s: State, n: Node, w: World) {
    n in MsOf(s) && MsOf(s)[n] == Elapsed(n, w)
  }

  /** The updates record how long the node took, and keep what was recorded before. */
  predicate Records(s: State, updates: State, n: Node, w: World) {
    TimingsMs in updates && updates[TimingsMs] == Timings(MsOf(s)[n := Elapsed(n, w)])
  }

  lemma NodeTimes(n: Node, s: State, w: World)
    requires n != End && !(n == AnswerNode && Truthy(s, FromCache)) && Perform(n, s, w).Updates?
    ensures Records(s, Perform(n, s, w).updates, n, w)
  {
    match n
    case CheckCache =>
    case Supervisor => SupervisorTimes(s, w);
    case Embed =>
    case Scope =>
    case Retrieve =>
    case Rerank => RerankTimes(s, w);
    case GraphEnrich =>
    case AnswerNode => AnswerTimes(s, w);
  }

  lemma RerankTimes(s: State, w: World)
    requires NodeRerank(s, w).Updates?
    ensures Records(s, NodeRerank(s, w).updates, Rerank, w)
  {
  }

  lemma AnswerTimes(s: State, w: World)
    requires !Truthy(s, FromCache) && NodeAnswer(s, w).Updates?
    ensures Records(s, NodeAnswer(s, w).updates, AnswerNode, w)
  {
  }

  lemma SupervisorTimes(s: State, w: World)
    requires NodeSupervisor(s, w).Updates?
    ensures Records(s, NodeSupervisor(s, w).updates, Supervisor, w)
  {
  }

  /** Before node n, not served from the cache, stage m has been timed if it comes earlier. */
  predicate TimedUpTo(n: Node, s: State, m: Node, w: World) {
    NotFromCache(n, s) && (Earlier(m, n) ==> TimedAt(s, m, w))
  }

  predicate NotFromCache(n: Node, s: State) { n != CheckCache && n != End ==> !Truthy(s, FromCache) }

  predicate Earlier(m: Node, n: Node) { Rank(m) > Rank(n) }

  lemma NextIsLater(m: Node, n: Node, s: State)
    requires n != End && m != GraphEnrich
    ensures Earlier(m, Next(n, s)) && n != CheckCache ==> m == n || Earlier(m, n)
    ensures n == CheckCache && !Truthy(s, FromCache) && Earlier(m, Next(n, s)) ==> m == n
  {
  }

  predicate TimeStepped(n: Node, s: State, step: Step, m: Node, w: World) {
    step.Updates? ==> TimedUpTo(Next(n, s + step.updates), s + step.updates, m, w)
  }

  /** Before the answer the graph has been timed if it was asked: it is when the chunks were good enough. */
  predicate GraphTimedUpTo(n: Node, s: State, w: World) {
    && (n != CheckCache && n != End ==> !Truthy(s, FromCache))
    && (n == GraphEnrich ==> !Truthy(s, Abstained))
    && ((n == AnswerNode || n == End) && !Truthy(s, Abstained) ==> TimedAt(s, GraphEnrich, w))
  }

  predicate GraphTimeStepped(n: Node, s: State, step: Step, w: World) {
    step.Updates? ==> GraphTimedUpTo(Next(n, s + step.updates), s + step.updates, w)
  }

  lemma RecordedTimes(s: State, updates: State, n: Node, w: World)
    requires Records(s, updates, n, w)
    ensures TimedAt(s + updates, n, w)
    ensures forall m :: TimedAt(s, m, w) ==> TimedAt(s + updates, m, w)
  {
    assert MsOf(s + updates) == MsOf(s)[n := Elapsed(n, w)];
  }

  lemma StepTimes(n: Node, s: State, step: Step, m: Node, w: World)
    requires n != End && m != GraphEnrich && TimedUpTo(n, s, m, w)
    requires n == CheckCache && step.Updates? ==> !Truthy(s + step.updates, FromCache)
    requires step.Updates? ==> step.updates.Keys <= Writes(n) && Records(s, step.updates, n, w)
    ensures TimeStepped(n, s, step, m, w)
  {
    if step.Updates? {
      RecordedTimes(s, step.updates, n, w);
      FlagsKept(n, s, step.updates);
      NextIsLater(m, n, s + step.updates);
    }
  }

  lemma GraphStepTimes(n: Node, s: State, step: Step, w: World)
    requires n != End && GraphTimedUpTo(n, s, w)
    requires n == CheckCache && step.Updates? ==> !Truthy(s + step.updates, FromCache)
    requires step.Updates? ==> step.updates.Keys <= Writes(n) && Records(s, step.updates, n, w)
    ensures GraphTimeStepped(n, s, step, w)
  {
    if step.Updates? {
      RecordedTimes(s, step.updates, n, w);
      FlagsKept(n, s, step.updates);
    }
  }

  lemma FlagsKept(n: Node, s: State, updates: State)
    requires updates.Keys <= Writes(n)
    ensures n != CheckCache ==> (Truthy(s + updates, FromCache) <==> Truthy(s, FromCache))
    ensures n == GraphEnrich || n == AnswerNode ==> (Truthy(s + updates, Abstained) <==> Truthy(s, Abstained))
  {
    if n != CheckCache { KeepsField(s, updates, Writes(n), FromCache); }
    if n == GraphEnrich || n == AnswerNode { KeepsField(s, updates, Writes(n), Abstained); }
  }

  lemma NodeRecords(n: Node, s: State, w: World)
    requires w.cached.None? && n != End && (n != CheckCache ==> !Truthy(s, FromCache)) && Perform(n, s, w).Updates?
    ensures Perform(n, s, w).updates.Keys <= Writes(n) && Records(s, Perform(n, s, w).updates, n, w)
    ensures n == CheckCache ==> !Truthy(s + Perform(n, s, w).updates, FromCache)
  {
    NodesWriteTheirFields(n, s, w);
    if n == CheckCache { CacheMisses(s, w); }
    NodeTimes(n, s, w);
  }

  lemma StepTimed(n: Node, s: State, m: Node, w: World)
    requires w.cached.None? && n != End && m != GraphEnrich && TimedUpTo(n, s, m, w)
    ensures TimeStepped(n, s, Perform(n, s, w), m, w)
  {
    if Perform(n, s, w).Updates? { NodeRecords(n, s, w); }
    StepTimes(n, s, Perform(n, s, w), m, w);
  }

  lemma GraphStepTimed(n: Node, s: State, w: World)
    requires w.cached.None? && n != End && GraphTimedUpTo(n, s, w)
    ensures GraphTimeStepped(n, s, Perform(n, s, w), w)
  {
    if Perform(n, s, w).Updates? { NodeRecords(n, s, w); }
    GraphStepTimes(n, s, Perform(n, s, w), w);
  }

  lemma {:induction false} FollowTimes(n: Node, s: State, calls: seq<Call>, m: Node, w: World, r: Result)
    requires w.cached.None? && m != GraphEnrich && TimedUpTo(n, s, m, w)
    requires r == Follow(n, s, calls, BehaviourIn(w))
    ensures r.Done? && m != End ==> TimedAt(r.state, m, w)
    decreases Rank(n)
  {
    if n != End {
      StepTimed(n, s, m, w);
      var step := Perform(n, s, w);
      if step.Updates? {
        FollowTimes(Next(n, s + step.updates), s + step.updates, calls + step.calls, m, w, r);
      }
    }
  }

  /** A run that misses the cache and gets to its end has the time of every stage but the graph ... */
  lemma RunTimes(initial: State, w: World, m: Node, r: Result)
    requires w.cached.None? && r == Run(initial, w) && r.Done? && m != End && m != GraphEnrich
    ensures TimedAt(r.state, m, w)
  {
    FollowTimes(CheckCache, initial, [], m, w, r);
  }

  /** ... and of the graph, when the chunks were good enough. */
  lemma RunTimesGraph(initial: State, w: World)
    requires w.cached.None? && Run(initial, w).Done? && !Truthy(Run(initial, w).state, Abstained)
    ensures TimedAt(Run(initial, w).state, GraphEnrich, w)
  {
    var inv := (n, s, calls) => GraphTimedUpTo(n, s, w);
    var any := calls => true;
    forall n, s, calls | n != End && inv(n, s, calls) ensures StepKeeps(BehaviourIn(w), inv, any, n, s, calls) {
      GraphStepTimed(n, s, w);
    }
    FollowKeeps(BehaviourIn(w), inv, any, CheckCache, initial, []);
  }

  // ----- the scope -----

  /** The supervisor pinned a collection or a document. */
  predicate Pins(w: World) {
    && w.supervisorRuns && w.supervise.Ok?
    && (|| (w.supervise.value.collection.Some? && w.supervise.value.collection.value != "")
        || (w.supervise.value.document.Some? && w.supervise.value.document.value != ""))
  }

  /** The scope's source once the supervisor is done: what it says; "inferred" when it pinned
      something and does not say; else what there was. */
  function SupervisedSource(initial: State, w: World): Value {
    if w.supervisorRuns && w.supervise.Ok? && ScopeSource in w.supervise.value.extra
    then w.supervise.value.extra[ScopeSource]
    else if Pins(w) then Text("inferred")
    else Get(initial, ScopeSource, Null)
  }

  /** The scope's source once it is resolved: what there is, if anything, else whether the
      caller pinned the scope. */
  function ResolvedSource(initial: State, w: World): Value {
    var source := SupervisedSource(initial, w);
    if Truthy(map[ScopeSource := source], ScopeSource) then source
    else Text(if Truthy(initial, ExplicitScope) then "explicit" else "inferred")
  }

  predicate SourceAt(n: Node, s: State, initial: State, w: World) {
    && (Truthy(s, ExplicitScope) <==> Truthy(initial, ExplicitScope))
    && (n != CheckCache && n != End ==> !Truthy(s, FromCache))
    && Get(s, ScopeSource, Null) ==
         match n
         case CheckCache => Get(initial, ScopeSource, Null)
         case Supervisor => Get(initial, ScopeSource, Null)
         case Embed => SupervisedSource(initial, w)
         case Scope => SupervisedSource(initial, w)
         case _ => ResolvedSource(initial, w)
  }

  predicate SourceStepped(n: Node, s: State, step: Step, initial: State, w: World) {
    step.Updates? ==> SourceAt(Next(n, s + step.updates), s + step.updates, initial, w)
  }

  lemma BystanderKeepsSource(n: Node, s: State, step: Step, initial: State, w: World)
    requires n != Supervisor && n != Scope && n != End && SourceAt(n, s, initial, w)
    requires step.Updates? ==> step.updates.Keys <= Writes(n)
    requires n == CheckCache && step.Updates? ==> !Truthy(s + step.updates, FromCache)
    ensures SourceStepped(n, s, step, initial, w)
  {
    if step.Updates? {
      KeepsField(s, step.updates, Writes(n), ScopeSource);
      KeepsField(s, step.updates, Writes(n), ExplicitScope);
      if n != CheckCache { KeepsField(s, step.updates, Writes(n), FromCache); }
    }
  }

  lemma RewriteSource(r: Rewrite)
    ensures ScopeSource in RewriteUpdates(r) <==> ScopeSource in r.extra
    ensures ScopeSource in r.extra ==> RewriteUpdates(r)[ScopeSource] == r.extra[ScopeSource]
    ensures Truthy(RewriteUpdates(r), CollectionId) <==> r.collection.Some? && r.collection.value != ""
    ensures Truthy(RewriteUpdates(r), DocumentId) <==> r.document.Some? && r.document.value != ""
  {
  }

  lemma SupervisorSources(s: State, w: World)
    requires NodeSupervisor(s, w).Updates?
    ensures NodeSupervisor(s, w).updates.Keys <= Writes(Supervisor)
    ensures Get(s + NodeSupervisor(s, w).updates, ScopeSource, Null) == SupervisedSource(s, w)
  {
    SupervisorWrites(s, w);
    var updates := NodeSupervisor(s, w).updates;
    if w.supervisorRuns && w.supervise.Ok? {
      var r := w.supervise.value;
      RewriteSource(r);
      assert ScopeSource in updates <==> ScopeSource in r.extra || Pins(w);
    } else {
      assert updates.Keys == {TimingsMs};
    }
  }

  lemma ScopeSources(s: State, w: World)
    ensures var updates := NodeScope(s, w).updates;
            && NodeScope(s, w).Updates? && updates.Keys == {TimingsMs, ScopeSource}
            && updates[ScopeSource] ==
                 if Truthy(s, ScopeSource) then s[ScopeSource]
                 else Text(if Truthy(s, ExplicitScope) then "explicit" else "inferred")
  {
  }

  lemma SupervisorKeepsSource(s: State, initial: State, w: World)
    requires SourceAt(Supervisor, s, initial, w)
    ensures SourceStepped(Supervisor, s, NodeSupervisor(s, w), initial, w)
  {
    if NodeSupervisor(s, w).Updates? {
      SupervisorSources(s, w);
      KeepsField(s, NodeSupervisor(s, w).updates, Writes(Supervisor), ExplicitScope);
      KeepsField(s, NodeSupervisor(s, w).updates, Writes(Supervisor), FromCache);
    }
  }

  lemma ScopeKeepsSource(s: State, initial: State, w: World)
    requires SourceAt(Scope, s, initial, w)
    ensures SourceStepped(Scope, s, NodeScope(s, w), initial, w)
  {
    ScopeSources(s, w);
    KeepsField(s, NodeScope(s, w).updates, Writes(Scope), ExplicitScope);
    KeepsField(s, NodeScope(s, w).updates, Writes(Scope), FromCache);
  }

  lemma CacheMisses(s: State, w: World)
    requires w.cached.None?
    ensures NodeCheckCache(s, w).Updates? && !Truthy(s + NodeCheckCache(s, w).updates, FromCache)
  {
  }

  lemma StepSources(n: Node, s: State, initial: State, w: World)
    requires w.cached.None? && n != End && SourceAt(n, s, initial, w)
    ensures SourceStepped(n, s, Perform(n, s, w), initial, w)
  {
    match n
    case Supervisor => SupervisorKeepsSource(s, initial, w);
    case Scope => ScopeKeepsSource(s, initial, w);
    case _ =>
      if n == CheckCache { CacheMisses(s, w); }
      NodesWriteTheirFields(n, s, w);
      BystanderKeepsSource(n, s, Perform(n, s, w), initial, w);
  }

  /** A run that misses the cache and gets to its end says where its scope came from. */
  lemma RunScopes(initial: State, w: World)
    requires w.cached.None? && Run(initial, w).Done?
    ensures Get(Run(initial, w).state, ScopeSource, Null) == ResolvedSource(initial, w)
  {
    var inv := (n, s, calls) => SourceAt(n, s, initial, w);
    var any := calls => true;
    forall n, s, calls | n != End && inv(n, s, calls) ensures StepKeeps(BehaviourIn(w), inv, any, n, s, calls) {
      StepSources(n, s, initial, w);
    }
    FollowKeeps(BehaviourIn(w), inv, any, CheckCache, initial, []);
  }
}
