/** Query admission by sliding window: the in-memory limiter of query/app/rate_limit.py.

    The limiter forgets admissions that have left the 60-second window.  The
    reference below forgets nothing: it keeps every admission time of every
    bucket and counts.  The class is proved to decide, and to hint, exactly as
    the reference does; the rate bounds are then proved of the reference, over
    whole runs. */
module RateWindow {
  import opened PythonLists
  import opened AdmissionLimits
  import opened KeyNames

  const WINDOW_S: real := 60.0

  function TenantKey(tenant: string): string { "tenant:" + tenant }

  function UserKey(tenant: string, principal: string): string { "user:" + tenant + ":" + principal }

  /** One call of check_query: the clock is read when the tenant bucket is
      pruned, when the user bucket is pruned, and once more at the end. */
  datatype Query = Query(tenant: string, principal: string, tenantPruned: real, userPruned: real, decided: real)

  ghost predicate ClockRunsForward(start: real, q: Query) {
    start <= q.tenantPruned <= q.userPruned <= q.decided
  }

  /** What the limiter answers; response headers are derived from it. */
  datatype Admission = Admission(allowed: bool, retryAfter: int, tenantRemaining: int, userRemaining: int)

  /** Every admission time of a bucket, oldest first. */
  type Histories = map<string, seq<real>>

  function HistoryOf(h: Histories, key: string): seq<real> {
    if key in h then h[key] else []
  }

  // ----- the reference: count the whole history -----

  predicate Expired(t: real, now: real) { now - t > WINDOW_S }

  /** The positions of the admissions still in the window at `now`. */
  function LiveIndices(times: seq<real>, now: real): set<int> {
    set i: int | 0 <= i < |times| && !Expired(times[i], now)
  }

  /** How many admissions are still in the window at `now`. */
  function InWindow(times: seq<real>, now: real): (n: nat)
    ensures n <= |times|
  {
    LiveAtMostAll(times, now);
    |LiveIndices(times, now)|
  }

  lemma LiveWithoutLast(times: seq<real>, now: real)
    requires times != []
    ensures var last := |times| - 1;
            LiveIndices(times, now) ==
            LiveIndices(times[..last], now) + (if Expired(times[last], now) then {} else {last})
  {
    var last := |times| - 1;
    var rest := LiveIndices(times[..last], now);
    forall i ensures i in LiveIndices(times, now) <==> i in rest || (i == last && !Expired(times[last], now)) {
      if 0 <= i < last { assert times[..last][i] == times[i]; }
    }
  }

  lemma {:induction false} LiveAtMostAll(times: seq<real>, now: real)
    ensures |LiveIndices(times, now)| <= |times|
  {
    if times != [] {
      LiveAtMostAll(times[..|times| - 1], now);
      LiveWithoutLast(times, now);
    }
  }

  lemma {:induction false} LiveSuffixSize(times: seq<real>, now: real, start: nat)
    requires start <= |times|
    requires forall i :: 0 <= i < |times| ==> (Expired(times[i], now) <==> i < start)
    ensures |LiveIndices(times, now)| == |times| - start
  {
    if start < |times| {
      LiveSuffixSize(times[..|times| - 1], now, start);
      LiveWithoutLast(times, now);
    } else {
      assert LiveIndices(times, now) == {};
    }
  }

  predicate AdmitsAt(h: Histories, tenantKey: string, userKey: string, q: Query, tenantLimit: int, userLimit: int) {
    && InWindow(HistoryOf(h, tenantKey), q.tenantPruned) < tenantLimit
    && InWindow(HistoryOf(h, userKey), q.userPruned) < userLimit
  }

  predicate Admits(h: Histories, q: Query, tenantLimit: int, userLimit: int) {
    AdmitsAt(h, TenantKey(q.tenant), UserKey(q.tenant, q.principal), q, tenantLimit, userLimit)
  }

  function Append(h: Histories, key: string, t: real): Histories {
    h[key := HistoryOf(h, key) + [t]]
  }

  /** The histories after a query: a refusal leaves them as they were. */
  function AfterAt(h: Histories, tenantKey: string, userKey: string, q: Query, tenantLimit: int,
                   userLimit: int): Histories {
    if AdmitsAt(h, tenantKey, userKey, q, tenantLimit, userLimit)
    then Append(Append(h, tenantKey, q.decided), userKey, q.decided)
    else h
  }

  function After(h: Histories, q: Query, tenantLimit: int, userLimit: int): Histories {
    AfterAt(h, TenantKey(q.tenant), UserKey(q.tenant, q.principal), q, tenantLimit, userLimit)
  }

  /** Python's int() on a float. */
  function Truncate(x: real): int {
    if x >= 0.0 then x.Floor else -((-x).Floor)
  }

  /** Seconds until the oldest admission in the tenant's window leaves it,
      rounded down, and at least one. */
  function RetryHint(oldest: real, now: real): int {
    Max(1, Truncate(60.0 - (now - oldest)))
  }

  /** The hint for a refused query: the oldest tenant admission still in the window decides it. */
  function HintFor(times: seq<real>, prunedAt: real, now: real): int {
    var n := InWindow(times, prunedAt);
    if n == 0 then 1 else RetryHint(times[|times| - n], now)
  }

  // ----- ordered histories -----

  ghost predicate Ordered(times: seq<real>, clock: real) {
    && (forall i, j :: 0 <= i < j < |times| ==> times[i] <= times[j])
    && (forall i :: 0 <= i < |times| ==> times[i] <= clock)
  }

  /** Where the window starts in an ordered history. */
  lemma {:induction false} WindowStart(times: seq<real>, clock: real, now: real) returns (start: nat)
    requires Ordered(times, clock)
    ensures start <= |times|
    ensures forall i :: 0 <= i < |times| ==> (Expired(times[i], now) <==> i < start)
  {
    start := 0;
    while start < |times| && Expired(times[start], now)
      invariant start <= |times|
      invariant forall i :: 0 <= i < start ==> Expired(times[i], now)
    {
      start := start + 1;
    }
  }

  /** In an ordered history the window is a suffix. */
  lemma WindowIsSuffix(times: seq<real>, clock: real, now: real)
    requires Ordered(times, clock)
    ensures forall i :: 0 <= i < |times| ==> (Expired(times[i], now) <==> i < |times| - InWindow(times, now))
  {
    var start := WindowStart(times, clock, now);
    LiveSuffixSize(times, now, start);
  }

  /** `kept` is `times` without a prefix that has left the window. */
  ghost predicate IsPruning(times: seq<real>, kept: seq<real>, clock: real) {
    && |kept| <= |times|
    && (forall i :: 0 <= i < |kept| ==> kept[i] == times[|times| - |kept| + i])
    && (forall i :: 0 <= i < |times| - |kept| ==> Expired(times[i], clock))
  }

  // ----- the limiter -----

  lemma KeysDiffer(tenant: string, userTenant: string, principal: string)
    ensures TenantKey(tenant) != UserKey(userTenant, principal)
  {
    assert TenantKey(tenant)[0] != UserKey(userTenant, principal)[0];
  }

  lemma TenantKeyInjective(t1: string, t2: string)
    requires TenantKey(t1) == TenantKey(t2)
    ensures t1 == t2
  {
    assert TenantKey(t1)[7..] == t1 && TenantKey(t2)[7..] == t2;
  }

  /** What the limiter knows of one bucket: its history in order, less what has expired. */
  ghost predicate BucketOk(times: seq<real>, kept: seq<real>, clock: real) {
    Ordered(times, clock) && IsPruning(times, kept, clock)
  }

  lemma BucketOkLater(times: seq<real>, kept: seq<real>, clock: real, later: real)
    requires BucketOk(times, kept, clock) && clock <= later
    ensures BucketOk(times, kept, later)
  {
  }

  lemma BucketOkAppend(times: seq<real>, kept: seq<real>, clock: real)
    requires BucketOk(times, kept, clock)
    ensures BucketOk(times + [clock], kept + [clock], clock)
  {
  }

  lemma BucketOkPop(times: seq<real>, kept: seq<real>, clock: real)
    requires BucketOk(times, kept, clock) && kept != [] && Expired(kept[0], clock)
    ensures BucketOk(times, kept[1..], clock)
  {
    var dropped := |times| - |kept|;
    assert times[dropped] == kept[0];
    forall i | 0 <= i < |kept| - 1 ensures kept[1..][i] == times[dropped + 1 + i] {
      assert kept[i + 1] == times[dropped + (i + 1)];
    }
  }

  /** A pruning with nothing expired at its head is exactly the window. */
  lemma PrunedIsWindow(times: seq<real>, kept: seq<real>, clock: real)
    requires BucketOk(times, kept, clock)
    requires kept != [] ==> !Expired(kept[0], clock)
    ensures |kept| == InWindow(times, clock)
    ensures kept != [] ==> kept[0] == times[|times| - |kept|]
  {
    var dropped := |times| - |kept|;
    if kept != [] { assert kept[0] == times[dropped + 0]; }
    LiveSuffixSize(times, clock, dropped);
  }

  ghost predicate BucketAt(admitted: Histories, events: Histories, clock: real, key: string) {
    BucketOk(HistoryOf(admitted, key), HistoryOf(events, key), clock)
  }

  ghost predicate BucketsOk(admitted: Histories, events: Histories, clock: real) {
    forall key :: BucketAt(admitted, events, clock, key)
  }

  lemma BucketsOkLater(admitted: Histories, events: Histories, clock: real, later: real)
    requires BucketsOk(admitted, events, clock) && clock <= later
    ensures BucketsOk(admitted, events, later)
  {
    forall key ensures BucketAt(admitted, events, later, key) {
      assert BucketAt(admitted, events, clock, key);
      BucketOkLater(HistoryOf(admitted, key), HistoryOf(events, key), clock, later);
    }
  }

  lemma BucketsOkPrune(admitted: Histories, events: Histories, clock: real, key: string, bucket: seq<real>)
    requires BucketsOk(admitted, events, clock) && BucketOk(HistoryOf(admitted, key), bucket, clock)
    ensures BucketsOk(admitted, events[key := bucket], clock)
  {
    var pruned := events[key := bucket];
    forall k ensures BucketAt(admitted, pruned, clock, k) {
      assert BucketAt(admitted, events, clock, k);
      assert HistoryOf(pruned, k) == if k == key then bucket else HistoryOf(events, k);
    }
  }

  lemma BucketsOkAppend(admitted: Histories, events: Histories, clock: real, key: string)
    requires BucketsOk(admitted, events, clock)
    ensures BucketsOk(Append(admitted, key, clock), Append(events, key, clock), clock)
  {
    forall k ensures BucketAt(Append(admitted, key, clock), Append(events, key, clock), clock, k) {
      assert BucketAt(admitted, events, clock, k);
      if k == key { BucketOkAppend(HistoryOf(admitted, key), HistoryOf(events, key), clock); }
    }
  }

  class Limiter {
    var events: Histories
    ghost var admitted: Histories
    ghost var clock: real

    ghost predicate Valid()
      reads this
    {
      BucketsOk(admitted, events, clock)
    }

    constructor (now: real)
      ensures Valid() && admitted == map[] && clock == now
    {
      events, admitted, clock := map[], map[], now;
    }

    /** _prune: drop from the left while the oldest event has expired. */
    method Prune(key: string, now: real) returns (bucket: seq<real>)
      requires Valid() && clock <= now
      modifies this`events, this`clock
      ensures Valid() && clock == now
      ensures events == old(events)[key := bucket]
      ensures |bucket| == InWindow(HistoryOf(admitted, key), now)
      ensures bucket != [] ==> bucket[0] == HistoryOf(admitted, key)[|HistoryOf(admitted, key)| - |bucket|]
    {
      BucketsOkLater(admitted, events, clock, now);
      assert BucketAt(admitted, events, now, key);
      bucket := HistoryOf(events, key);
      while bucket != [] && now - bucket[0] > WINDOW_S
        invariant unchanged(this)
        invariant BucketOk(HistoryOf(admitted, key), bucket, now)
      {
        BucketOkPop(HistoryOf(admitted, key), bucket, now);
        bucket := bucket[1..];
      }
      PrunedIsWindow(HistoryOf(admitted, key), bucket, now);
      BucketsOkPrune(admitted, events, now, key, bucket);
      events := events[key := bucket];
      clock := now;
    }

    /** The append that follows an admission, in the dict and in the history. */
    method Admit(key: string, now: real)
      requires Valid() && now == clock
      modifies this`events, this`admitted
      ensures Valid()
      ensures events == Append(old(events), key, now)
      ensures admitted == Append(old(admitted), key, now)
    {
      BucketsOkAppend(admitted, events, clock, key);
      events := Append(events, key, now);
      admitted := Append(admitted, key, now);
    }

    static method RetryAfter(bucket: seq<real>, now: real) returns (retry: int)
      ensures retry == if bucket == [] then 1 else RetryHint(bucket[0], now)
    {
      retry := 1;
      if bucket != [] {
        retry := Max(1, Truncate(60.0 - (now - bucket[0])));
      }
    }

    /** The append of an admitted query to both buckets. */
    method AdmitBoth(tenantKey: string, userKey: string, now: real) returns (tenantCount: nat, userCount: nat)
      requires Valid() && now == clock && tenantKey != userKey
      modifies this`events, this`admitted
      ensures Valid()
      ensures admitted == Append(Append(old(admitted), tenantKey, now), userKey, now)
      ensures tenantCount == |HistoryOf(old(events), tenantKey)| + 1
      ensures userCount == |HistoryOf(old(events), userKey)| + 1
    {
      Admit(tenantKey, now);
      Admit(userKey, now);
      tenantCount, userCount := |events[tenantKey]|, |events[userKey]|;
    }

    /** The two prunings a query starts with. */
    method PruneBoth(tenantKey: string, userKey: string, q: Query)
      returns (tenantBucket: seq<real>, userBucket: seq<real>)
      requires Valid() && ClockRunsForward(clock, q) && tenantKey != userKey
      modifies this`events, this`clock
      ensures Valid() && clock == q.decided
      ensures HistoryOf(events, tenantKey) == tenantBucket && HistoryOf(events, userKey) == userBucket
      ensures |tenantBucket| == InWindow(HistoryOf(admitted, tenantKey), q.tenantPruned)
      ensures tenantBucket != [] ==>
                tenantBucket[0] == HistoryOf(admitted, tenantKey)[|HistoryOf(admitted, tenantKey)| - |tenantBucket|]
      ensures |userBucket| == InWindow(HistoryOf(admitted, userKey), q.userPruned)
    {
      tenantBucket := Prune(tenantKey, q.tenantPruned);
      userBucket := Prune(userKey, q.userPruned);
      BucketsOkLater(admitted, events, clock, q.decided);
      clock := q.decided;
    }

    /** check_query, once the bucket keys are formed. */
    method CheckBuckets(tenantKey: string, userKey: string, q: Query, tenantLimit: int, userLimit: int)
      returns (r: Admission)
      requires Valid() && ClockRunsForward(clock, q) && tenantKey != userKey
      modifies this
      ensures Valid() && clock == q.decided
      ensures r.allowed == AdmitsAt(old(admitted), tenantKey, userKey, q, tenantLimit, userLimit)
      ensures admitted == AfterAt(old(admitted), tenantKey, userKey, q, tenantLimit, userLimit)
      ensures !r.allowed ==>
                r == Admission(false, HintFor(HistoryOf(old(admitted), tenantKey), q.tenantPruned, q.decided), 0, 0)
      ensures r.allowed ==>
                r == Admission(true, 0,
                               tenantLimit - 1 - InWindow(HistoryOf(old(admitted), tenantKey), q.tenantPruned),
                               userLimit - 1 - InWindow(HistoryOf(old(admitted), userKey), q.userPruned))
    {
      var tenantBucket, userBucket := PruneBoth(tenantKey, userKey, q);
      if |tenantBucket| >= tenantLimit || |userBucket| >= userLimit {
        var retry := RetryAfter(tenantBucket, q.decided);
        return Admission(false, retry, 0, 0);
      }
      var tenantCount, userCount := AdmitBoth(tenantKey, userKey, q.decided);
      return Admission(true, 0, Max(tenantLimit - tenantCount, 0), Max(userLimit - userCount, 0));
    }

    /** check_query. */
    method CheckQuery(q: Query, tenantLimit: int, userLimit: int) returns (r: Admission)
      requires Valid() && ClockRunsForward(clock, q)
      modifies this
      ensures Valid() && clock == q.decided
      ensures r.allowed == Admits(old(admitted), q, tenantLimit, userLimit)
      ensures admitted == After(old(admitted), q, tenantLimit, userLimit)
      ensures !r.allowed ==>
                r == Admission(false,
                               HintFor(HistoryOf(old(admitted), TenantKey(q.tenant)), q.tenantPruned, q.decided), 0, 0)
      ensures r.allowed ==>
                r == Admission(true, 0,
                               tenantLimit - 1 - InWindow(HistoryOf(old(admitted), TenantKey(q.tenant)),
                                                          q.tenantPruned),
                               userLimit - 1 - InWindow(HistoryOf(old(admitted), UserKey(q.tenant, q.principal)),
                                                        q.userPruned))
    {
      KeysDiffer(q.tenant, q.tenant, q.principal);
      r := CheckBuckets(TenantKey(q.tenant), UserKey(q.tenant, q.principal), q, tenantLimit, userLimit);
    }
  }

  /** An admitted query is one more admission, at the time it was decided, of its tenant and
      its user and of nobody else; a refused one is none. */
  lemma AdmissionIsRecorded(h: Histories, q: Query, tenantLimit: int, userLimit: int, key: string)
    ensures HistoryOf(After(h, q, tenantLimit, userLimit), key) ==
            if Admits(h, q, tenantLimit, userLimit)
               && (key == TenantKey(q.tenant) || key == UserKey(q.tenant, q.principal))
            then HistoryOf(h, key) + [q.decided] else HistoryOf(h, key)
  {
    KeysDiffer(q.tenant, q.tenant, q.principal);
  }

  // ----- the retry hint -----

  /** The hint with a refusal is a second if the tenant's window is empty; else the whole
      seconds until its oldest admission is 60 old, and at least one. */
  lemma HintIsTimeLeft(times: seq<real>, clock: real, prunedAt: real, now: real, i: nat)
    requires Ordered(times, clock) && clock <= prunedAt
    ensures (forall t :: t in times ==> prunedAt - t > 60.0) ==> HintFor(times, prunedAt, now) == 1
    ensures i < |times| && prunedAt - times[i] <= 60.0 && (forall j :: 0 <= j < i ==> prunedAt - times[j] > 60.0) ==>
              var left, hint := 60.0 - (now - times[i]), HintFor(times, prunedAt, now);
              && hint >= 1 && (left < 2.0 ==> hint == 1)
              && (left >= 1.0 ==> hint as real <= left < hint as real + 1.0)
  {
    WindowIsSuffix(times, clock, prunedAt);
    var n := InWindow(times, prunedAt);
    if n > 0 { assert times[|times| - n] in times && !Expired(times[|times| - n], prunedAt); }
    if i < |times| && !Expired(times[i], prunedAt) && n > 0 {
      assert forall j :: 0 <= j < |times| ==> (Expired(times[j], prunedAt) <==> j < |times| - n);
    }
  }

  /** The hint given with a refusal always lies between 1 and 60. */
  lemma RetryHintRange(times: seq<real>, clock: real, prunedAt: real, now: real)
    requires Ordered(times, clock) && clock <= prunedAt <= now
    ensures 1 <= HintFor(times, prunedAt, now) <= 60
  {
    WindowIsSuffix(times, clock, prunedAt);
  }

  /** The bucket has room at time t: the admission whose expiry brings the count under the
      limit has left the window. */
  predicate HasRoom(times: seq<real>, limit: int, t: real) {
    limit > 0 && (|times| < limit || Expired(times[|times| - limit], t))
  }

  lemma RoomIffBelowLimit(times: seq<real>, clock: real, limit: int, t: real)
    requires Ordered(times, clock)
    ensures HasRoom(times, limit, t) <==> InWindow(times, t) < limit
  {
    WindowIsSuffix(times, clock, t);
  }

  /** The query made once more, with every clock reading at time t. */
  function Again(q: Query, t: real): Query { Query(q.tenant, q.principal, t, t, t) }

  /** The moment a refused caller is told to come back. */
  function HintedTime(h: Histories, q: Query): real {
    q.decided + HintFor(HistoryOf(h, TenantKey(q.tenant)), q.tenantPruned, q.decided) as real
  }

  /** With nothing in between, a refused caller who waits for the hinted time is admitted
      exactly when both buckets have room by then. */
  lemma RetryAdmittedIff(h: Histories, clock: real, q: Query, tenantLimit: int, userLimit: int)
    requires ClockRunsForward(clock, q) && !Admits(h, q, tenantLimit, userLimit)
    requires Ordered(HistoryOf(h, TenantKey(q.tenant)), clock)
    requires Ordered(HistoryOf(h, UserKey(q.tenant, q.principal)), clock)
    ensures var after, t := After(h, q, tenantLimit, userLimit), HintedTime(h, q);
            Admits(after, Again(q, t), tenantLimit, userLimit) <==>
            && HasRoom(HistoryOf(h, TenantKey(q.tenant)), tenantLimit, t)
            && HasRoom(HistoryOf(h, UserKey(q.tenant, q.principal)), userLimit, t)
  {
    var t := HintedTime(h, q);
    RoomIffBelowLimit(HistoryOf(h, TenantKey(q.tenant)), clock, tenantLimit, t);
    RoomIffBelowLimit(HistoryOf(h, UserKey(q.tenant, q.principal)), clock, userLimit, t);
  }

  /** A query refused by its tenant's limit, its user having room: the retry is admitted
      exactly when less than a second was left, for the hint is rounded down where it would
      have to be rounded up. */
  lemma RetryHintSuffices(h: Histories, clock: real, q: Query, tenantLimit: int, userLimit: int)
    requires ClockRunsForward(clock, q)
    requires Ordered(HistoryOf(h, TenantKey(q.tenant)), clock)
    requires Ordered(HistoryOf(h, UserKey(q.tenant, q.principal)), clock)
    requires InWindow(HistoryOf(h, TenantKey(q.tenant)), q.tenantPruned) == tenantLimit > 0
    requires InWindow(HistoryOf(h, UserKey(q.tenant, q.principal)), q.userPruned) < userLimit
    ensures var times := HistoryOf(h, TenantKey(q.tenant));
            var left := 60.0 - (q.decided - times[|times| - tenantLimit]);
            Admits(h, Again(q, HintedTime(h, q)), tenantLimit, userLimit) <==> left < 1.0
  {
    var times, userTimes := HistoryOf(h, TenantKey(q.tenant)), HistoryOf(h, UserKey(q.tenant, q.principal));
    var t := HintedTime(h, q);
    var left := 60.0 - (q.decided - times[|times| - tenantLimit]);
    RetryAdmittedIff(h, clock, q, tenantLimit, userLimit);
    RoomIffBelowLimit(userTimes, clock, userLimit, q.userPruned);
    assert HasRoom(userTimes, userLimit, q.userPruned) && q.userPruned <= t;
    if left >= 1.0 { assert Truncate(left) as real <= left; }
  }

  /** So half a second too early is enough: the tenant's only admission leaves in 29.5 seconds. */
  lemma TenantRefusalMisleads()
    ensures var h := map[TenantKey("t") := [0.0]];
            var q := Query("t", "p", 30.5, 30.5, 30.5);
            && !Admits(h, q, 1, 1)
            && HintedTime(h, q) == 59.5
            && !Admits(h, Again(q, HintedTime(h, q)), 1, 1)
  {
    KeysDiffer("t", "t", "p");
    var h := map[TenantKey("t") := [0.0]];
    var q := Query("t", "p", 30.5, 30.5, 30.5);
    WindowIsSuffix([0.0], 0.0, 30.5);
    assert !Expired([0.0][0], 30.5);
    assert InWindow([0.0], 30.5) == 1 && InWindow([], 30.5) == 0;
    RetryHintSuffices(h, 0.0, q, 1, 1);
  }

  /** A query refused by its user's limit alone is still told about its tenant's oldest
      admission: the retry is admitted exactly when the user's oldest one has less time left
      than that hint. */
  lemma UserRefusalRetry(h: Histories, clock: real, q: Query, tenantLimit: int, userLimit: int)
    requires ClockRunsForward(clock, q)
    requires Ordered(HistoryOf(h, TenantKey(q.tenant)), clock)
    requires Ordered(HistoryOf(h, UserKey(q.tenant, q.principal)), clock)
    requires InWindow(HistoryOf(h, TenantKey(q.tenant)), q.tenantPruned) < tenantLimit
    requires InWindow(HistoryOf(h, UserKey(q.tenant, q.principal)), q.userPruned) == userLimit > 0
    ensures var times := HistoryOf(h, UserKey(q.tenant, q.principal));
            var left := 60.0 - (q.decided - times[|times| - userLimit]);
            Admits(h, Again(q, HintedTime(h, q)), tenantLimit, userLimit) <==>
            left < HintFor(HistoryOf(h, TenantKey(q.tenant)), q.tenantPruned, q.decided) as real
  {
    var times, t := HistoryOf(h, TenantKey(q.tenant)), HintedTime(h, q);
    RetryAdmittedIff(h, clock, q, tenantLimit, userLimit);
    RoomIffBelowLimit(times, clock, tenantLimit, q.tenantPruned);
    RetryHintRange(times, clock, q.tenantPruned, q.decided);
    assert HasRoom(times, tenantLimit, q.tenantPruned) && q.tenantPruned <= t;
  }

  /** So a user can be sent back 58 seconds early: the tenant's oldest admission leaves in
      half a second, the user's own in 59. */
  lemma UserRefusalMisleads()
    ensures var h := map[TenantKey("t") := [0.0, 58.5], UserKey("t", "p") := [58.5]];
            var q := Query("t", "p", 59.5, 59.5, 59.5);
            && !Admits(h, q, 100, 1)
            && HintedTime(h, q) == 60.5
            && !Admits(h, Again(q, HintedTime(h, q)), 100, 1)
  {
    KeysDiffer("t", "t", "p");
    var h := map[TenantKey("t") := [0.0, 58.5], UserKey("t", "p") := [58.5]];
    var q := Query("t", "p", 59.5, 59.5, 59.5);
    WindowIsSuffix([0.0, 58.5], 58.5, 59.5);
    WindowIsSuffix([58.5], 58.5, 59.5);
    assert !Expired([0.0, 58.5][0], 59.5) && !Expired([58.5][0], 59.5);
    assert InWindow([0.0, 58.5], 59.5) == 2 && InWindow([58.5], 59.5) == 1;
    UserRefusalRetry(h, 58.5, q, 100, 1);
  }

  // ----- bounds over whole runs -----

  function Step(h: Histories, q: Query, l: Limits): Histories {
    After(h, q, TenantLimit(l, q.tenant), l.user)
  }

  function Run(h: Histories, qs: seq<Query>, l: Limits): Histories
    decreases |qs|
  {
    if qs == [] then h else Run(Step(h, qs[0], l), qs[1..], l)
  }

  ghost predicate ClockRunsForwardThrough(start: real, qs: seq<Query>)
    decreases |qs|
  {
    qs != [] ==> ClockRunsForward(start, qs[0]) && ClockRunsForwardThrough(qs[0].decided, qs[1..])
  }

  /** Admissions in the closed interval from `lo` to `hi`. */
  function CountBetween(times: seq<real>, lo: real, hi: real): (n: nat)
    ensures n <= |times|
  {
    if times == [] then 0
    else CountBetween(times[1..], lo, hi) + (if lo <= times[0] <= hi then 1 else 0)
  }

  /** No closed interval of up to 60 seconds holds more than `limit` admissions. */
  ghost predicate RateBounded(times: seq<real>, limit: int) {
    forall lo, hi :: hi <= lo + WINDOW_S ==> CountBetween(times, lo, hi) <= Max(limit, 0)
  }

  /** Any limit+1 consecutive admissions span more than the window. */
  ghost predicate Spaced(times: seq<real>, limit: nat) {
    forall i {:trigger times[i]} :: 0 <= i < |times| - limit ==> times[i + limit] - times[i] > WINDOW_S
  }

  lemma {:induction false} SpacedIsBounded(times: seq<real>, clock: real, limit: nat, lo: real, hi: real)
    requires Ordered(times, clock) && Spaced(times, limit) && hi <= lo + WINDOW_S
    ensures CountBetween(times, lo, hi) <= limit
  {
    if |times| > limit {
      var rest := times[1..];
      assert Spaced(rest, limit) by {
        forall i | 0 <= i < |rest| - limit ensures rest[i + limit] - rest[i] > WINDOW_S {
          assert rest[i] == times[i + 1];
        }
      }
      SpacedIsBounded(rest, clock, limit, lo, hi);
      if lo <= times[0] {
        assert times[limit] - times[0] > WINDOW_S;
        CountBeforeLimit(times, clock, limit, lo, hi);
      }
    }
  }

  /** Once the element at `limit` is past the interval, only the ones before it can count. */
  lemma {:induction false} CountBeforeLimit(times: seq<real>, clock: real, limit: nat, lo: real, hi: real)
    requires Ordered(times, clock) && limit < |times| && times[limit] > hi
    ensures CountBetween(times, lo, hi) <= limit
  {
    if limit == 0 {
      if |times| > 1 {
        assert times[0] <= times[1];
        CountBeforeLimit(times[1..], clock, 0, lo, hi);
      }
    } else {
      CountBeforeLimit(times[1..], clock, limit - 1, lo, hi);
    }
  }

  /** What a run keeps of one bucket with its limit. */
  ghost predicate BucketInvariant(times: seq<real>, clock: real, limit: int) {
    Ordered(times, clock) && Spaced(times, Max(limit, 0))
  }

  ghost predicate RunInvariant(h: Histories, clock: real, l: Limits) {
    && (forall tenant :: BucketInvariant(HistoryOf(h, TenantKey(tenant)), clock, TenantLimit(l, tenant)))
    && (forall tenant, principal :: BucketInvariant(HistoryOf(h, UserKey(tenant, principal)), clock, l.user))
  }

  lemma AppendKeepsOrder(times: seq<real>, clock: real, now: real)
    requires Ordered(times, clock) && clock <= now
    ensures Ordered(times + [now], now)
  {
  }

  lemma AppendKeepsBucket(times: seq<real>, clock: real, limit: int, prunedAt: real, now: real)
    requires BucketInvariant(times, clock, limit) && clock <= prunedAt <= now
    requires InWindow(times, prunedAt) < limit
    ensures BucketInvariant(times + [now], now, limit)
  {
    AppendKeepsOrder(times, clock, now);
    AppendKeepsSpacing(times, clock, limit, prunedAt, now);
  }

  lemma AppendKeepsSpacing(times: seq<real>, clock: real, limit: nat, prunedAt: real, now: real)
    requires Ordered(times, clock) && Spaced(times, limit) && clock <= prunedAt <= now
    requires InWindow(times, prunedAt) < limit
    ensures Spaced(times + [now], limit)
  {
    WindowIsSuffix(times, clock, prunedAt);
    var longer := times + [now];
    forall i {:trigger longer[i]} | 0 <= i < |longer| - limit ensures longer[i + limit] - longer[i] > WINDOW_S {
      assert longer[i] == times[i];
      if i + limit == |times| {
        assert Expired(times[i], prunedAt);
        assert longer[i + limit] == now;
      } else {
        assert longer[i + limit] == times[i + limit];
      }
    }
  }

  lemma LaterKeepsBucket(times: seq<real>, clock: real, limit: int, later: real)
    requires BucketInvariant(times, clock, limit) && clock <= later
    ensures BucketInvariant(times, later, limit)
  {
  }

  lemma AfterKeepsBucket(h: Histories, clock: real, q: Query, tenantKey: string, userKey: string,
                         tenantLimit: int, userLimit: int, key: string, limit: int)
    requires ClockRunsForward(clock, q) && tenantKey != userKey
    requires BucketInvariant(HistoryOf(h, key), clock, limit)
    requires key == tenantKey ==> limit == tenantLimit
    requires key == userKey ==> limit == userLimit
    ensures BucketInvariant(HistoryOf(AfterAt(h, tenantKey, userKey, q, tenantLimit, userLimit), key), q.decided, limit)
  {
    var times := HistoryOf(h, key);
    LaterKeepsBucket(times, clock, limit, q.decided);
    if AdmitsAt(h, tenantKey, userKey, q, tenantLimit, userLimit) {
      if key == tenantKey {
        AppendKeepsBucket(times, clock, limit, q.tenantPruned, q.decided);
      } else if key == userKey {
        AppendKeepsBucket(times, clock, limit, q.userPruned, q.decided);
      }
    }
  }

  lemma StepKeepsTenant(h: Histories, clock: real, q: Query, l: Limits, tenant: string)
    requires RunInvariant(h, clock, l) && ClockRunsForward(clock, q)
    ensures BucketInvariant(HistoryOf(Step(h, q, l), TenantKey(tenant)), q.decided, TenantLimit(l, tenant))
  {
    KeysDiffer(tenant, q.tenant, q.principal);
    KeysDiffer(q.tenant, q.tenant, q.principal);
    if TenantKey(tenant) == TenantKey(q.tenant) { TenantKeyInjective(tenant, q.tenant); }
    AfterKeepsBucket(h, clock, q, TenantKey(q.tenant), UserKey(q.tenant, q.principal),
                     TenantLimit(l, q.tenant), l.user, TenantKey(tenant), TenantLimit(l, tenant));
  }

  lemma StepKeepsUser(h: Histories, clock: real, q: Query, l: Limits, tenant: string, principal: string)
    requires RunInvariant(h, clock, l) && ClockRunsForward(clock, q)
    ensures BucketInvariant(HistoryOf(Step(h, q, l), UserKey(tenant, principal)), q.decided, l.user)
  {
    KeysDiffer(q.tenant, tenant, principal);
    KeysDiffer(q.tenant, q.tenant, q.principal);
    AfterKeepsBucket(h, clock, q, TenantKey(q.tenant), UserKey(q.tenant, q.principal),
                     TenantLimit(l, q.tenant), l.user, UserKey(tenant, principal), l.user);
  }

  lemma StepKeepsInvariant(h: Histories, clock: real, q: Query, l: Limits)
    requires RunInvariant(h, clock, l) && ClockRunsForward(clock, q)
    ensures RunInvariant(Step(h, q, l), q.decided, l)
  {
    forall tenant { StepKeepsTenant(h, clock, q, l, tenant); }
    forall tenant, principal { StepKeepsUser(h, clock, q, l, tenant, principal); }
  }

  lemma {:induction false} RunKeepsInvariant(h: Histories, clock: real, qs: seq<Query>, l: Limits)
    returns (end: real)
    requires RunInvariant(h, clock, l) && ClockRunsForwardThrough(clock, qs)
    ensures RunInvariant(Run(h, qs, l), end, l)
    decreases |qs|
  {
    if qs == [] {
      end := clock;
    } else {
      StepKeepsInvariant(h, clock, qs[0], l);
      end := RunKeepsInvariant(Step(h, qs[0], l), qs[0].decided, qs[1..], l);
    }
  }

  /** On every run, every closed 60-second interval holds at most the tenant's
      limit of its admissions and at most the user limit of any user's. */
  lemma RatesAreBounded(start: real, qs: seq<Query>, l: Limits, tenant: string, principal: string)
    requires ClockRunsForwardThrough(start, qs)
    ensures var h := Run(map[], qs, l);
            && RateBounded(HistoryOf(h, TenantKey(tenant)),
                           if tenant in l.tenant then l.tenant[tenant] else l.tenantDefault)
            && RateBounded(HistoryOf(h, UserKey(tenant, principal)), l.user)
  {
    var end := RunKeepsInvariant(map[], start, qs, l);
    var h := Run(map[], qs, l);
    var tenantTimes, userTimes := HistoryOf(h, TenantKey(tenant)), HistoryOf(h, UserKey(tenant, principal));
    assert BucketInvariant(tenantTimes, end, TenantLimit(l, tenant));
    assert BucketInvariant(userTimes, end, l.user);
    forall lo, hi | hi <= lo + WINDOW_S ensures CountBetween(tenantTimes, lo, hi) <= Max(TenantLimit(l, tenant), 0) {
      SpacedIsBounded(tenantTimes, end, Max(TenantLimit(l, tenant), 0), lo, hi);
    }
    forall lo, hi | hi <= lo + WINDOW_S ensures CountBetween(userTimes, lo, hi) <= Max(l.user, 0) {
      SpacedIsBounded(userTimes, end, Max(l.user, 0), lo, hi);
    }
  }

  /** The queries of a run that were admitted. */
  function Admitted(h: Histories, qs: seq<Query>, l: Limits): seq<Query>
    decreases |qs|
  {
    if qs == [] then []
    else
      var rest := Admitted(Step(h, qs[0], l), qs[1..], l);
      if Admits(h, qs[0], TenantLimit(l, qs[0].tenant), l.user) then [qs[0]] + rest else rest
  }

  /** Refusals leave no trace: had they never been made, every admitted query would
      still have been admitted and the histories would be the same. */
  lemma {:induction false} RefusalsLeaveNoTrace(h: Histories, qs: seq<Query>, l: Limits)
    ensures var kept := Admitted(h, qs, l);
            Run(h, kept, l) == Run(h, qs, l) && Admitted(h, kept, l) == kept
    decreases |qs|
  {
    if qs != [] {
      RefusalsLeaveNoTrace(Step(h, qs[0], l), qs[1..], l);
      var rest := Admitted(Step(h, qs[0], l), qs[1..], l);
      if Admits(h, qs[0], TenantLimit(l, qs[0].tenant), l.user) {
        assert ([qs[0]] + rest)[1..] == rest;
      }
    }
  }

  // ----- bucket names -----

  /** Two tenants can share a user bucket exactly when one name, with its colon, is a
      prefix of the other. */
  lemma UserBucketsCollide(t1: string, t2: string)
    ensures (exists p1, p2 :: UserKey(t1, p1) == UserKey(t2, p2)) <==> Overlapping(t1 + ":", t2 + ":")
  {
    CoincideIffOverlapping(t1 + ":", t2 + ":");
    if p1, p2 :| UserKey(t1, p1) == UserKey(t2, p2) {
      UserKeyEqual(t1, p1, t2, p2);
    }
    if p1, p2 :| t1 + ":" + p1 == t2 + ":" + p2 {
      UserKeyEqual(t1, p1, t2, p2);
    }
  }

  lemma UserKeyEqual(t1: string, p1: string, t2: string, p2: string)
    ensures UserKey(t1, p1) == UserKey(t2, p2) <==> t1 + ":" + p1 == t2 + ":" + p2
  {
    FramedEqual("user:", t1 + ":" + p1, t2 + ":" + p2, "");
    assert UserKey(t1, p1) == "user:" + (t1 + ":" + p1) + "" && UserKey(t2, p2) == "user:" + (t2 + ":" + p2) + "";
  }

  /** Tenants whose names hold no colon never share a user bucket. */
  lemma UserBucketsSeparate(t1: string, t2: string, p1: string, p2: string)
    requires ':' !in t1 && ':' !in t2 && t1 != t2
    ensures UserKey(t1, p1) != UserKey(t2, p2)
  {
    UserKeyEqual(t1, p1, t2, p2);
    if UserKey(t1, p1) == UserKey(t2, p2) { FirstFieldUnique(':', t1, p1, t2, p2); }
  }
}
