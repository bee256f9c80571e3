/** Tenant chunk quotas (ingest/app/quota_store.py) over whole histories of the catalog. */
module Quotas {
  import opened PythonLists
  import opened MapSums
  import opened CatalogSpec
  import PruneSettings

  datatype Verdict = Within | Exceeded(current: int, estimated: int, maxChunks: int)

  /** assert_quota_for_enqueue, as far as chunks go. */
  ghost function AssertQuota(enforced: bool, versions: Versions, tenant: string, estimated: int,
                             maxChunks: int): Verdict {
    if !enforced then Within
    else
      var current := ChunkCount(versions, tenant);
      if current + Max(estimated, 0) > maxChunks then Exceeded(current, estimated, maxChunks) else Within
  }

  /** A check fails exactly when quotas are enforced and the chunks stored for the tenant and
      the estimate, one that is negative counting as none, are more than its maximum; it says
      which these were. */
  lemma CheckFailsIff(enforced: bool, versions: Versions, tenant: string, estimated: int, maxChunks: int)
    ensures var count := Sum(Counts(versions, tenant));
            AssertQuota(enforced, versions, tenant, estimated, maxChunks) ==
            if enforced && (count > maxChunks || (estimated > 0 && count + estimated > maxChunks))
            then Exceeded(count, estimated, maxChunks) else Within
  {
  }

  /** What can happen to the catalog: an ingest that is checked and then recorded, a prune, a purge. */
  datatype Op =
    | Ingest(tenant: string, chunks: seq<Chunk>, estimated: int, jobId: string, now: string)
    | Prune(keepCount: int)
    | PurgeTenant(tenant: string)

  ghost function Apply(cat: Catalog, op: Op, maxChunks: string -> int): Catalog {
    match op
    case Ingest(tenant, chunks, estimated, jobId, now) =>
      if AssertQuota(true, cat.versions, tenant, estimated, maxChunks(tenant)).Within?
      then Record(cat, chunks, jobId, now) else cat
    case Prune(keepCount) => Without(cat, PrunableSet(cat, keepCount))
    case PurgeTenant(tenant) => Purge(cat, tenant)
  }

  ghost function Run(cat: Catalog, ops: seq<Op>, maxChunks: string -> int): Catalog {
    if ops == [] then cat else Apply(Run(cat, ops[..|ops| - 1], maxChunks), ops[|ops| - 1], maxChunks)
  }

  /** An ingest names the tenant of all its chunks and does not understate their number. */
  ghost predicate Honest(op: Op) {
    op.Ingest? ==>
      (forall c :: c in op.chunks ==> c.tenant == op.tenant) && op.estimated >= PlacedFor(op.chunks, op.tenant)
  }

  lemma {:induction false} OthersUncounted(chunks: seq<Chunk>, tenant: string, other: string)
    requires tenant != other && forall c :: c in chunks ==> c.tenant == tenant
    ensures PlacedFor(chunks, other) == 0
  {
    if chunks != [] {
      assert chunks[|chunks| - 1] in chunks;
      OthersUncounted(chunks[..|chunks| - 1], tenant, other);
    }
  }

  lemma OpKeepsCount(cat: Catalog, op: Op, maxChunks: string -> int, tenant: string)
    requires Honest(op)
    ensures ChunkCount(Apply(cat, op, maxChunks).versions, tenant) <=
            if op.Ingest? && op.tenant == tenant
               && AssertQuota(true, cat.versions, tenant, op.estimated, maxChunks(tenant)).Within?
            then Max(ChunkCount(cat.versions, tenant), maxChunks(tenant)) else ChunkCount(cat.versions, tenant)
  {
    match op
    case Ingest(t, chunks, estimated, jobId, now) =>
      RecordConservesCount(cat, chunks, jobId, now, tenant);
      if t != tenant { OthersUncounted(chunks, t, tenant); }
    case Prune(keepCount) => RemovingNeverAdds(cat.versions, Apply(cat, op, maxChunks).versions, tenant);
    case PurgeTenant(t) => RemovingNeverAdds(cat.versions, Apply(cat, op, maxChunks).versions, tenant);
  }

  /** What an operation leaves: a purge nothing of its tenant and everything else; a prune the
      versions that are not prunable, as they were; an ingest that fails its check everything,
      and one that passes counts its placed chunks in place of the rows it overwrites. */
  lemma OpLeaves(cat: Catalog, op: Op, maxChunks: string -> int, key: VerKey, tenant: string)
    ensures var after, count := Apply(cat, op, maxChunks), ChunkCount(cat.versions, tenant);
            && (op.PurgeTenant? ==>
                  && (key in after.versions <==> key in cat.versions && key.doc.tenant != op.tenant)
                  && (key in after.versions ==> after.versions[key] == cat.versions[key])
                  && ChunkCount(after.versions, tenant) == if tenant == op.tenant then 0 else count)
            && (op.Prune? ==>
                  && (key in after.versions <==> key in cat.versions && !Prunable(cat, op.keepCount, key))
                  && (key in after.versions ==> after.versions[key] == cat.versions[key]))
            && (op.Ingest? ==>
                  if ChunkCount(cat.versions, op.tenant) + Max(op.estimated, 0) > maxChunks(op.tenant) then after == cat
                  else
                    ChunkCount(after.versions, tenant) ==
                        count + PlacedFor(op.chunks, tenant) - Overwritten(cat.versions, GroupOrder(op.chunks), tenant))
  {
    match op
    case Ingest(_, chunks, _, jobId, now) => RecordConservesCount(cat, chunks, jobId, now, tenant);
    case Prune(_) =>
    case PurgeTenant(t) => if tenant != t { PurgeIsolates(cat, t, tenant); } else { PurgeIsolates(cat, t, t + "x"); }
  }

  /** On every history of ingests checked just before they are recorded, prunes and purges,
      in any order and for any tenants, no tenant ever passes its quota. */
  lemma {:induction false} QuotaHolds(cat: Catalog, ops: seq<Op>, maxChunks: string -> int, tenant: string)
    requires ChunkCount(cat.versions, tenant) <= maxChunks(tenant)
    requires forall i :: 0 <= i < |ops| ==> Honest(ops[i])
    ensures ChunkCount(Run(cat, ops, maxChunks).versions, tenant) <= maxChunks(tenant)
  {
    if ops != [] {
      QuotaHolds(cat, ops[..|ops| - 1], maxChunks, tenant);
      OpKeepsCount(Run(cat, ops[..|ops| - 1], maxChunks), ops[|ops| - 1], maxChunks, tenant);
    }
  }

  /** Rows stay coherent over every such history. */
  lemma {:induction false} HistoryKeepsCoherent(cat: Catalog, ops: seq<Op>, maxChunks: string -> int)
    requires Coherent(cat)
    ensures Coherent(Run(cat, ops, maxChunks))
  {
    if ops != [] {
      var before, op := Run(cat, ops[..|ops| - 1], maxChunks), ops[|ops| - 1];
      HistoryKeepsCoherent(cat, ops[..|ops| - 1], maxChunks);
      match op
      case Ingest(_, chunks, _, jobId, now) => RecordKeepsCoherent(before, chunks, jobId, now);
      case Prune(keepCount) => PruneKeepsCoherent(before, keepCount);
      case PurgeTenant(tenant) => PurgeIsolates(before, tenant, tenant + "x");
    }
  }

  // ----- batches that overwrite nothing -----

  /** No version id is longer than n. */
  ghost predicate IdsWithin(versions: Versions, n: nat) {
    forall key :: key in versions ==> |key.version| <= n
  }

  lemma {:induction false} SomeBound(keys: set<VerKey>) returns (n: nat)
    ensures forall key :: key in keys ==> |key.version| <= n
    decreases |keys|
  {
    n := 0;
    if keys != {} {
      var key :| key in keys;
      n := SomeBound(keys - {key});
      n := Max(n, |key.version|);
    }
  }

  /** A batch of n chunks of one new version, whose id is longer than k. */
  function FreshBatch(tenant: string, k: nat, n: nat): seq<Chunk> {
    seq(n, _ => Chunk("u", tenant, "c", "d", PruneSettings.VersionId(k), "", "x", "", ""))
  }

  lemma {:induction false} FreshIsPlaced(tenant: string, k: nat, n: nat)
    ensures PlacedFor(FreshBatch(tenant, k, n), tenant) == if tenant == "" then 0 else n
  {
    if n > 0 {
      assert FreshBatch(tenant, k, n)[..n - 1] == FreshBatch(tenant, k, n - 1);
      FreshIsPlaced(tenant, k, n - 1);
    }
  }

  lemma {:induction false} NothingOverwritten(versions: Versions, order: seq<VerKey>, tenant: string)
    requires forall key :: key in order ==> key !in versions
    ensures Overwritten(versions, order, tenant) == 0
  {
    if order != [] {
      assert order[|order| - 1] in order;
      NothingOverwritten(versions, order[..|order| - 1], tenant);
    }
  }

  lemma FreshBatchCounts(cat: Catalog, tenant: string, k: nat, n: nat, jobId: string, now: string)
    requires IdsWithin(cat.versions, k)
    ensures var chunks := FreshBatch(tenant, k, n);
            var after := Record(cat, chunks, jobId, now);
            && (forall c :: c in chunks ==> c.tenant == tenant)
            && PlacedFor(chunks, tenant) == (if tenant == "" then 0 else n)
            && ChunkCount(after.versions, tenant) == ChunkCount(cat.versions, tenant) + PlacedFor(chunks, tenant)
            && IdsWithin(after.versions, k + 1)
  {
    var chunks := FreshBatch(tenant, k, n);
    var order := GroupOrder(chunks);
    FreshIsPlaced(tenant, k, n);
    GroupOrderMeans(chunks);
    assert forall key :: key in order ==> key.version == PruneSettings.VersionId(k);
    NothingOverwritten(cat.versions, order, tenant);
    RecordConservesCount(cat, chunks, jobId, now, tenant);
    RecordMeans(cat, chunks, jobId, now);
  }

  // ----- estimates that fall short -----

  /** By how much an understated estimate can carry a tenant over: no more than the shortfall. */
  lemma ShortfallBounds(cat: Catalog, chunks: seq<Chunk>, estimated: int, maxChunks: int, tenant: string,
                        jobId: string, now: string)
    requires AssertQuota(true, cat.versions, tenant, estimated, maxChunks).Within?
    ensures ChunkCount(Record(cat, chunks, jobId, now).versions, tenant) <=
            maxChunks + Max(PlacedFor(chunks, tenant) - Max(estimated, 0), 0)
  {
    RecordConservesCount(cat, chunks, jobId, now, tenant);
  }

  /** On every catalog and for every shortfall that bound is reached: by a batch of a new
      version, when the estimate just fits. */
  lemma ShortfallIsReached(cat: Catalog, tenant: string, estimated: int, actual: nat) returns (chunks: seq<Chunk>)
    requires tenant != "" && actual >= Max(estimated, 0)
    ensures var maxChunks := ChunkCount(cat.versions, tenant) + Max(estimated, 0);
            && PlacedFor(chunks, tenant) == actual
            && AssertQuota(true, cat.versions, tenant, estimated, maxChunks).Within?
            && ChunkCount(Record(cat, chunks, "", "").versions, tenant) == maxChunks + actual - Max(estimated, 0)
  {
    var k := SomeBound(cat.versions.Keys);
    chunks := FreshBatch(tenant, k, actual);
    FreshBatchCounts(cat, tenant, k, actual, "", "");
  }

  // ----- ingests that are queued between check and record -----

  datatype Batch = Batch(chunks: seq<Chunk>, jobId: string, now: string)

  function RecordAll(cat: Catalog, batches: seq<Batch>): Catalog {
    if batches == [] then cat
    else
      var last := batches[|batches| - 1];
      Record(RecordAll(cat, batches[..|batches| - 1]), last.chunks, last.jobId, last.now)
  }

  function Total(estimates: seq<nat>): nat {
    if estimates == [] then 0 else Total(estimates[..|estimates| - 1]) + estimates[|estimates| - 1]
  }

  /** A batch of one tenant with no more chunks than estimated. */
  ghost predicate Estimated(batch: Batch, estimate: nat, tenant: string) {
    (forall c :: c in batch.chunks ==> c.tenant == tenant) && PlacedFor(batch.chunks, tenant) <= estimate
  }

  ghost predicate AllEstimated(batches: seq<Batch>, estimates: seq<nat>, tenant: string) {
    |batches| == |estimates| && forall i :: 0 <= i < |batches| ==> Estimated(batches[i], estimates[i], tenant)
  }

  /** Each of the ingests passes the check on the catalog as it stands. */
  ghost predicate AllPass(cat: Catalog, estimates: seq<nat>, tenant: string, maxChunks: int) {
    forall i :: 0 <= i < |estimates| ==> AssertQuota(true, cat.versions, tenant, estimates[i], maxChunks).Within?
  }

  /** Ingests with these estimates, all checked before any is recorded, keep the quota whatever they hold. */
  ghost predicate QueueKeepsQuota(cat: Catalog, estimates: seq<nat>, tenant: string, maxChunks: int) {
    AllPass(cat, estimates, tenant, maxChunks) ==>
      forall batches :: AllEstimated(batches, estimates, tenant) ==>
        ChunkCount(RecordAll(cat, batches).versions, tenant) <= maxChunks
  }

  lemma {:induction false} NamelessUncounted(chunks: seq<Chunk>)
    ensures PlacedFor(chunks, "") == 0
  {
    if chunks != [] { NamelessUncounted(chunks[..|chunks| - 1]); }
  }

  lemma {:induction false} QueueBounds(cat: Catalog, batches: seq<Batch>, estimates: seq<nat>, tenant: string)
    requires AllEstimated(batches, estimates, tenant)
    ensures ChunkCount(RecordAll(cat, batches).versions, tenant) <=
            ChunkCount(cat.versions, tenant) + if tenant == "" then 0 else Total(estimates)
  {
    if batches != [] {
      var n := |batches| - 1;
      QueueBounds(cat, batches[..n], estimates[..n], tenant);
      var last := batches[n];
      assert Estimated(last, estimates[n], tenant);
      RecordConservesCount(RecordAll(cat, batches[..n]), last.chunks, last.jobId, last.now, tenant);
      if tenant == "" { NamelessUncounted(last.chunks); }
    }
  }

  /** Batches that hold all that was estimated and overwrite nothing. */
  ghost predicate Full(cat: Catalog, batches: seq<Batch>, estimates: seq<nat>, tenant: string, k: nat) {
    && AllEstimated(batches, estimates, tenant)
    && IdsWithin(RecordAll(cat, batches).versions, k + |estimates|)
    && ChunkCount(RecordAll(cat, batches).versions, tenant) ==
       ChunkCount(cat.versions, tenant) + if tenant == "" then 0 else Total(estimates)
  }

  lemma {:induction false} FullQueue(cat: Catalog, estimates: seq<nat>, tenant: string, k: nat)
    returns (batches: seq<Batch>)
    requires IdsWithin(cat.versions, k)
    ensures Full(cat, batches, estimates, tenant, k)
  {
    batches := [];
    if estimates != [] {
      var n := |estimates| - 1;
      var front := FullQueue(cat, estimates[..n], tenant, k);
      batches := FullNext(cat, front, estimates[..n], estimates[n], tenant, k);
      assert estimates == estimates[..n] + [estimates[n]];
    }
  }

  lemma FullNext(cat: Catalog, front: seq<Batch>, estimates: seq<nat>, estimate: nat, tenant: string, k: nat)
    returns (batches: seq<Batch>)
    requires Full(cat, front, estimates, tenant, k)
    ensures Full(cat, batches, estimates + [estimate], tenant, k)
  {
    var n := k + |estimates|;
    var last := Batch(FreshBatch(tenant, n, estimate), "", "");
    FreshBatchCounts(RecordAll(cat, front), tenant, n, estimate, "", "");
    QueueNext(cat, front, last, estimates, estimate, tenant);
    batches := front + [last];
  }

  lemma QueueNext(cat: Catalog, front: seq<Batch>, last: Batch, estimates: seq<nat>, estimate: nat, tenant: string)
    requires AllEstimated(front, estimates, tenant) && Estimated(last, estimate, tenant)
    ensures AllEstimated(front + [last], estimates + [estimate], tenant)
    ensures RecordAll(cat, front + [last]) == Record(RecordAll(cat, front), last.chunks, last.jobId, last.now)
    ensures Total(estimates + [estimate]) == Total(estimates) + estimate
  {
    assert (front + [last])[..|front|] == front && (estimates + [estimate])[..|estimates|] == estimates;
  }

  /** Checking before queueing keeps the quota, whatever the batches hold, exactly when some
      ingest does not pass or the estimates fit all together (chunks without a tenant are
      not recorded). */
  lemma QueueKeepsQuotaIff(cat: Catalog, estimates: seq<nat>, tenant: string, maxChunks: int)
    ensures QueueKeepsQuota(cat, estimates, tenant, maxChunks) <==>
            || (exists i :: 0 <= i < |estimates| && ChunkCount(cat.versions, tenant) + estimates[i] > maxChunks)
            || ChunkCount(cat.versions, tenant) + (if tenant == "" then 0 else Total(estimates)) <= maxChunks
  {
    if AllPass(cat, estimates, tenant, maxChunks) {
      var k := SomeBound(cat.versions.Keys);
      var worst := FullQueue(cat, estimates, tenant, k);
      forall batches | AllEstimated(batches, estimates, tenant)
        ensures ChunkCount(RecordAll(cat, batches).versions, tenant) <=
                ChunkCount(cat.versions, tenant) + if tenant == "" then 0 else Total(estimates)
      {
        QueueBounds(cat, batches, estimates, tenant);
      }
      assert forall i :: 0 <= i < |estimates| ==> ChunkCount(cat.versions, tenant) + estimates[i] <= maxChunks;
    } else {
      var i :| 0 <= i < |estimates| && !AssertQuota(true, cat.versions, tenant, estimates[i], maxChunks).Within?;
      assert ChunkCount(cat.versions, tenant) + estimates[i] > maxChunks;
    }
  }

  /** Two ingests checked before either is recorded, as when their writes are queued. */
  ghost predicate BothPass(cat: Catalog, a: seq<Chunk>, b: seq<Chunk>, tenant: string, maxChunks: int) {
    && AssertQuota(true, cat.versions, tenant, |a|, maxChunks).Within?
    && AssertQuota(true, cat.versions, tenant, |b|, maxChunks).Within?
  }

  /** Checking early is not enough: each of the two fits, both together do not. */
  lemma QueuedWritesOvershoot()
    ensures exists a, b, tenant, maxChunks ::
              && BothPass(Catalog(map[], map[]), a, b, tenant, maxChunks)
              && ChunkCount(Record(Record(Catalog(map[], map[]), a, "", ""), b, "", "").versions, tenant) > maxChunks
  {
    var empty := Catalog(map[], map[]);
    var a := [Chunk("1", "t", "c", "d", "v1", "", "x", "", "")];
    var b := [Chunk("2", "t", "c", "d", "v2", "", "y", "", "")];
    assert Counts(empty.versions, "t") == map[];
    OneChunk(a[0], "t");
    OneChunk(b[0], "t");
    RecordConservesCount(empty, a, "", "", "t");
    var after := Record(empty, a, "", "");
    RecordMeans(empty, a, "", "");
    RecordConservesCount(after, b, "", "", "t");
    assert KeyOf(a[0]) != KeyOf(b[0]) by { assert "v1"[1] != "v2"[1]; }
    assert BothPass(empty, a, b, "t", 1);
  }

  lemma OneChunk(c: Chunk, tenant: string)
    requires Placed(c) && c.tenant == tenant
    ensures PlacedFor([c], tenant) == 1 && GroupOrder([c]) == [KeyOf(c)]
    ensures forall versions: Versions :: KeyOf(c) !in versions ==> Overwritten(versions, GroupOrder([c]), tenant) == 0
  {
    assert [c][..0] == [];
    assert PlacedFor([c][..0], tenant) == 0 && GroupOrder([c][..0]) == [];
    assert [KeyOf(c)][..0] == [];
  }

  // ----- checks and records in any order -----

  /** An ingest that passed its check and has not been recorded. */
  datatype Ticket = Ticket(tenant: string, estimate: nat)

  datatype Flow = Flow(cat: Catalog, tickets: seq<Ticket>)

  /** An ingest is checked and queued; one that is queued is recorded; or an operation of its own. */
  datatype Move = Enqueue(tenant: string, estimated: int) | Write(k: nat, batch: Batch) | Do(op: Op)

  function InFlight(tickets: seq<Ticket>, tenant: string): nat {
    if tickets == [] then 0
    else
      var last := tickets[|tickets| - 1];
      InFlight(tickets[..|tickets| - 1], tenant) + if last.tenant == tenant then last.estimate else 0
  }

  /** The move is a check of this tenant, and it passes. */
  ghost predicate Passes(f: Flow, m: Move, tenant: string, maxChunks: string -> int) {
    match m
    case Enqueue(t, estimated) => t == tenant && AssertQuota(true, f.cat.versions, t, estimated, maxChunks(t)).Within?
    case Write(_, _) => false
    case Do(op) =>
      op.Ingest? && op.tenant == tenant
      && AssertQuota(true, f.cat.versions, tenant, op.estimated, maxChunks(tenant)).Within?
  }

  ghost function Moved(f: Flow, m: Move, maxChunks: string -> int): Flow {
    match m
    case Enqueue(t, estimated) =>
      if Passes(f, m, t, maxChunks) then f.(tickets := f.tickets + [Ticket(t, Max(estimated, 0))]) else f
    case Write(k, batch) =>
      if k < |f.tickets|
      then Flow(Record(f.cat, batch.chunks, batch.jobId, batch.now), f.tickets[..k] + f.tickets[k + 1..]) else f
    case Do(op) => f.(cat := Apply(f.cat, op, maxChunks))
  }

  ghost function Flowed(f: Flow, moves: seq<Move>, maxChunks: string -> int): Flow {
    if moves == [] then f else Moved(Flowed(f, moves[..|moves| - 1], maxChunks), moves[|moves| - 1], maxChunks)
  }

  function Done(ops: seq<Op>): (moves: seq<Move>)
    ensures |moves| == |ops| && forall i :: 0 <= i < |ops| ==> moves[i] == Do(ops[i])
  {
    seq(|ops|, i requires 0 <= i < |ops| => Do(ops[i]))
  }

  /** A flow that queues nothing is a history ... */
  lemma {:induction false} UnqueuedIsHistory(f: Flow, ops: seq<Op>, maxChunks: string -> int)
    ensures Flowed(f, Done(ops), maxChunks) == Flow(Run(f.cat, ops, maxChunks), f.tickets)
  {
    if ops != [] {
      assert Done(ops)[..|ops| - 1] == Done(ops[..|ops| - 1]);
      UnqueuedIsHistory(f, ops[..|ops| - 1], maxChunks);
    }
  }

  /** ... and an ingest that is queued and written with nothing in between is one that is
      recorded at once, whether its check passes or not. */
  lemma QueuedAloneIsIngest(f: Flow, tenant: string, chunks: seq<Chunk>, estimated: int, jobId: string, now: string,
                            maxChunks: string -> int)
    ensures var queued := Moved(f, Enqueue(tenant, estimated), maxChunks);
            var written := Moved(queued, Write(|f.tickets|, Batch(chunks, jobId, now)), maxChunks);
            written == Flow(Apply(f.cat, Ingest(tenant, chunks, estimated, jobId, now), maxChunks), f.tickets)
  {
    var queued := Moved(f, Enqueue(tenant, estimated), maxChunks);
    if Passes(f, Enqueue(tenant, estimated), tenant, maxChunks) {
      assert queued.tickets[..|f.tickets|] + queued.tickets[|f.tickets| + 1..] == f.tickets;
    }
  }

  /** What is recorded holds no more chunks than was estimated. */
  ghost predicate HonestMove(f: Flow, m: Move) {
    match m
    case Enqueue(_, _) => true
    case Write(k, batch) => k < |f.tickets| ==> Estimated(batch, f.tickets[k].estimate, f.tickets[k].tenant)
    case Do(op) => Honest(op)
  }

  ghost predicate HonestMoves(f: Flow, moves: seq<Move>, maxChunks: string -> int) {
    moves != [] ==>
      && HonestMoves(f, moves[..|moves| - 1], maxChunks)
      && HonestMove(Flowed(f, moves[..|moves| - 1], maxChunks), moves[|moves| - 1])
  }

  /** The most that was in flight for a tenant when one of its checks passed. */
  ghost function Peak(f: Flow, moves: seq<Move>, tenant: string, maxChunks: string -> int): nat {
    if moves == [] then 0
    else
      var front, last := moves[..|moves| - 1], moves[|moves| - 1];
      var before := Flowed(f, front, maxChunks);
      Max(Peak(f, front, tenant, maxChunks),
          if Passes(before, last, tenant, maxChunks) then InFlight(before.tickets, tenant) else 0)
  }

  /** The chunks a tenant has and those it may still get. */
  ghost function Committed(f: Flow, tenant: string): int {
    ChunkCount(f.cat.versions, tenant) + InFlight(f.tickets, tenant)
  }

  lemma {:induction false} TicketTaken(tickets: seq<Ticket>, k: nat, tenant: string)
    requires k < |tickets|
    ensures InFlight(tickets[..k] + tickets[k + 1..], tenant) ==
            InFlight(tickets, tenant) - if tickets[k].tenant == tenant then tickets[k].estimate else 0
  {
    var front, taken := tickets[..|tickets| - 1], tickets[..k] + tickets[k + 1..];
    if k == |front| {
      assert taken == front;
    } else {
      TicketTaken(front, k, tenant);
      assert taken[..|taken| - 1] == front[..k] + front[k + 1..] && taken[|taken| - 1] == tickets[|tickets| - 1];
    }
  }

  /** No move adds to what is committed, except a check that passes, which keeps it within
      the quota and what was in flight. */
  lemma MoveKeepsCommitted(f: Flow, m: Move, tenant: string, maxChunks: string -> int)
    requires HonestMove(f, m)
    ensures Committed(Moved(f, m, maxChunks), tenant) <=
            if Passes(f, m, tenant, maxChunks)
            then Max(Committed(f, tenant), maxChunks(tenant) + InFlight(f.tickets, tenant))
            else Committed(f, tenant)
  {
    match m
    case Enqueue(t, estimated) =>
      var ticket := Ticket(t, Max(estimated, 0));
      assert (f.tickets + [ticket])[..|f.tickets|] == f.tickets;
    case Write(k, batch) =>
      if k < |f.tickets| {
        var t := f.tickets[k].tenant;
        TicketTaken(f.tickets, k, tenant);
        RecordConservesCount(f.cat, batch.chunks, batch.jobId, batch.now, tenant);
        if t != tenant { OthersUncounted(batch.chunks, t, tenant); }
      }
    case Do(op) => OpKeepsCount(f.cat, op, maxChunks, tenant);
  }

  /** However checks, records, prunes and purges interleave, a tenant passes its quota by no
      more than was in flight for it when one of its checks passed. */
  lemma {:induction false} OvershootWithinPeak(f: Flow, moves: seq<Move>, tenant: string, maxChunks: string -> int)
    requires HonestMoves(f, moves, maxChunks) && Committed(f, tenant) <= maxChunks(tenant)
    ensures Committed(Flowed(f, moves, maxChunks), tenant) <= maxChunks(tenant) + Peak(f, moves, tenant, maxChunks)
  {
    if moves != [] {
      var front, last := moves[..|moves| - 1], moves[|moves| - 1];
      OvershootWithinPeak(f, front, tenant, maxChunks);
      MoveKeepsCommitted(Flowed(f, front, maxChunks), last, tenant, maxChunks);
    }
  }

  /** That much is reached, whatever was in flight: the second of two ingests just fits when
      it is checked, and both are recorded in full. */
  lemma PeakIsReached(cat: Catalog, tenant: string, first: nat, second: nat, maxChunks: string -> int)
    returns (moves: seq<Move>)
    requires tenant != "" && first <= second && maxChunks(tenant) == ChunkCount(cat.versions, tenant) + second
    ensures var f := Flow(cat, []);
            && HonestMoves(f, moves, maxChunks) && Peak(f, moves, tenant, maxChunks) == first
            && ChunkCount(Flowed(f, moves, maxChunks).cat.versions, tenant) == maxChunks(tenant) + first
  {
    var a := FullBatch(cat, tenant, first);
    var b := FullBatch(Record(cat, a.chunks, a.jobId, a.now), tenant, second);
    moves := BothQueued(cat, tenant, first, second, maxChunks);
    moves := BothWritten(Flow(cat, []), moves, Flow(cat, [Ticket(tenant, first), Ticket(tenant, second)]), a, b, tenant,
                         maxChunks);
  }

  lemma BothWritten(f: Flow, moves: seq<Move>, queued: Flow, a: Batch, b: Batch, tenant: string,
                    maxChunks: string -> int) returns (all: seq<Move>)
    requires HonestMoves(f, moves, maxChunks) && Flowed(f, moves, maxChunks) == queued && |queued.tickets| == 2
    requires Estimated(a, queued.tickets[0].estimate, queued.tickets[0].tenant)
    requires Estimated(b, queued.tickets[1].estimate, queued.tickets[1].tenant)
    ensures HonestMoves(f, all, maxChunks) && Peak(f, all, tenant, maxChunks) == Peak(f, moves, tenant, maxChunks)
    ensures Flowed(f, all, maxChunks).cat ==
            Record(Record(queued.cat, a.chunks, a.jobId, a.now), b.chunks, b.jobId, b.now)
  {
    var once := Flow(Record(queued.cat, a.chunks, a.jobId, a.now), queued.tickets[1..]);
    FirstWritten(queued, a, maxChunks);
    all := OneMove(f, moves, queued, Write(0, a), once, tenant, maxChunks);
    FirstWritten(once, b, maxChunks);
    all := OneMove(f, all, once, Write(0, b), Moved(once, Write(0, b), maxChunks), tenant, maxChunks);
  }

  /** A batch as large as estimated that overwrites nothing. */
  lemma FullBatch(cat: Catalog, tenant: string, n: nat) returns (b: Batch)
    requires tenant != ""
    ensures Estimated(b, n, tenant)
    ensures ChunkCount(Record(cat, b.chunks, b.jobId, b.now).versions, tenant) == ChunkCount(cat.versions, tenant) + n
  {
    var k := SomeBound(cat.versions.Keys);
    b := Batch(FreshBatch(tenant, k, n), "", "");
    FreshBatchCounts(cat, tenant, k, n, "", "");
  }

  lemma BothQueued(cat: Catalog, tenant: string, first: nat, second: nat, maxChunks: string -> int)
    returns (moves: seq<Move>)
    requires ChunkCount(cat.versions, tenant) + Max(first, second) <= maxChunks(tenant)
    ensures var f := Flow(cat, []);
            && HonestMoves(f, moves, maxChunks) && Peak(f, moves, tenant, maxChunks) == first
            && Flowed(f, moves, maxChunks) == Flow(cat, [Ticket(tenant, first), Ticket(tenant, second)])
  {
    var f0, f1 := Flow(cat, []), Flow(cat, [Ticket(tenant, first)]);
    var f2 := Flow(cat, [Ticket(tenant, first), Ticket(tenant, second)]);
    assert [] + [Ticket(tenant, first)] == f1.tickets && f1.tickets + [Ticket(tenant, second)] == f2.tickets;
    assert f1.tickets[..0] == [];
    moves := OneMove(f0, [], f0, Enqueue(tenant, first), f1, tenant, maxChunks);
    moves := OneMove(f0, moves, f1, Enqueue(tenant, second), f2, tenant, maxChunks);
  }

  lemma FirstWritten(f: Flow, batch: Batch, maxChunks: string -> int)
    requires f.tickets != []
    ensures Moved(f, Write(0, batch), maxChunks) ==
            Flow(Record(f.cat, batch.chunks, batch.jobId, batch.now), f.tickets[1..])
  {
    assert f.tickets[..0] + f.tickets[1..] == f.tickets[1..];
  }

  /** A run and one move more. */
  lemma OneMove(f: Flow, moves: seq<Move>, before: Flow, m: Move, after: Flow, tenant: string,
                maxChunks: string -> int) returns (all: seq<Move>)
    requires HonestMoves(f, moves, maxChunks) && before == Flowed(f, moves, maxChunks)
    requires HonestMove(before, m) && after == Moved(before, m, maxChunks)
    ensures HonestMoves(f, all, maxChunks) && after == Flowed(f, all, maxChunks)
    ensures Peak(f, all, tenant, maxChunks) ==
            Max(Peak(f, moves, tenant, maxChunks),
                if Passes(before, m, tenant, maxChunks) then InFlight(before.tickets, tenant) else 0)
  {
    all := moves + [m];
    assert all[..|moves|] == moves;
  }
}
