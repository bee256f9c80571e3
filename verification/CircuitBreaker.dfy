/** The circuit breaker of query/app/circuit_breaker.py.

    The breaker keeps a state, a counter and a time.  The reference keeps every
    outcome ever recorded and reads the answer off that history; the class is
    proved to give the reference's answers at every point of every run. */
module CircuitBreakers {
  import opened PythonLists

  datatype Outcome = Succeeded | Failed(at: real)

  /** Failures recorded since the last success. */
  function FailuresSinceSuccess(history: seq<Outcome>): (n: nat)
    ensures n <= |history|
  {
    if history == [] || history[|history| - 1].Succeeded? then 0
    else FailuresSinceSuccess(history[..|history| - 1]) + 1
  }

  /** Failures needed to trip; a threshold below one acts as one. */
  function Needed(threshold: int): (n: nat)
    ensures n >= 1
  {
    Max(threshold, 1)
  }

  ghost predicate Tripped(history: seq<Outcome>, threshold: int) {
    FailuresSinceSuccess(history) >= Needed(threshold)
  }

  function LastFailure(history: seq<Outcome>): real
    requires history != [] && history[|history| - 1].Failed?
  {
    history[|history| - 1].at
  }

  /** Refused: enough failures since the last success, the latest less than the timeout ago. */
  ghost predicate Refuses(history: seq<Outcome>, threshold: int, resetTimeout: real, now: real) {
    Tripped(history, threshold) && now - LastFailure(history) < resetTimeout
  }

  datatype Phase = Closed | Open | HalfOpen

  /** What a caller sees: half open is tripped with the timeout served. */
  ghost function PhaseOf(history: seq<Outcome>, threshold: int, resetTimeout: real, now: real): Phase {
    if !Tripped(history, threshold) then Closed
    else if Refuses(history, threshold, resetTimeout, now) then Open
    else HalfOpen
  }

  datatype Result<T> = Returned(value: T) | Raised | CircuitOpen

  class CircuitBreaker {
    const failureThreshold: int
    const resetTimeout: real
    var phase: Phase
    var failures: int
    var openedAt: real
    ghost var history: seq<Outcome>
    ghost var clock: real

    ghost predicate Valid()
      reads this
    {
      && (phase == Closed <==> !Tripped(history, failureThreshold))
      && (phase == Closed ==> failures == FailuresSinceSuccess(history))
      && (phase != Closed ==> failures >= failureThreshold && openedAt == LastFailure(history) <= clock)
      && (phase == HalfOpen ==> clock - openedAt >= resetTimeout)
    }

    constructor (failureThreshold: int, resetTimeout: real, now: real)
      ensures Valid() && history == [] && clock == now
      ensures this.failureThreshold == failureThreshold && this.resetTimeout == resetTimeout
    {
      this.failureThreshold, this.resetTimeout := failureThreshold, resetTimeout;
      phase, failures, openedAt := Closed, 0, 0.0;
      history, clock := [], now;
    }

    method AllowRequest(now: real) returns (allowed: bool)
      requires Valid() && clock <= now
      modifies this`phase, this`clock
      ensures Valid() && clock == now
      ensures allowed <==> !Refuses(history, failureThreshold, resetTimeout, now)
    {
      clock := now;
      if phase == Closed { return true; }
      if phase == Open {
        if now - openedAt >= resetTimeout {
          phase := HalfOpen;
          return true;
        }
        return false;
      }
      return true;
    }

    method RecordSuccess()
      requires Valid()
      modifies this`phase, this`failures, this`history
      ensures Valid() && history == old(history) + [Succeeded]
    {
      failures := 0;
      phase := Closed;
      history := history + [Succeeded];
    }

    method RecordFailure(now: real)
      requires Valid() && clock <= now
      modifies this`phase, this`failures, this`openedAt, this`history, this`clock
      ensures Valid() && clock == now && history == old(history) + [Failed(now)]
    {
      history := history + [Failed(now)];
      clock := now;
      assert history[..|history| - 1] == old(history);
      if phase == HalfOpen {
        phase := Open;
        openedAt := now;
        failures := failureThreshold;
        return;
      }
      failures := failures + 1;
      if failures >= failureThreshold {
        phase := Open;
        openedAt := now;
      }
    }

    /** The `state` property: it reports, without moving, what the history says. */
    method State(now: real) returns (seen: Phase)
      requires Valid() && clock <= now
      ensures seen == PhaseOf(history, failureThreshold, resetTimeout, now)
    {
      if phase == Open && now - openedAt >= resetTimeout { return HalfOpen; }
      return phase;
    }

    /** run_guarded: `outcome` is what fn would do, at the times the clock is read.  fn
        runs exactly when the breaker does not refuse, and its outcome is recorded then. */
    method RunGuarded<T>(enabled: bool, outcome: Result<T>, asked: real, ended: real)
      returns (r: Result<T>, called: bool)
      requires Valid() && clock <= asked <= ended
      modifies this`phase, this`failures, this`openedAt, this`history, this`clock
      ensures Valid()
      ensures called <==> !(enabled && Refuses(old(history), failureThreshold, resetTimeout, asked))
      ensures r == if called then outcome else CircuitOpen
      ensures history == if !called || !enabled then old(history)
                         else old(history) + [if outcome.Returned? then Succeeded else Failed(ended)]
    {
      called := false;
      if enabled {
        var allowed := AllowRequest(asked);
        if !allowed { return CircuitOpen, false; }
      }
      called := true;
      if !outcome.Returned? {
        if enabled { RecordFailure(ended); }
        return outcome, true;
      }
      if enabled { RecordSuccess(); }
      return outcome, true;
    }
  }

  // ----- the reference, said another way -----

  lemma {:induction false} CountsTrailingFailures(history: seq<Outcome>, k: nat)
    ensures FailuresSinceSuccess(history) >= k <==>
            |history| >= k && forall i :: |history| - k <= i < |history| ==> history[i].Failed?
  {
    if k > 0 && history != [] {
      var front := history[..|history| - 1];
      CountsTrailingFailures(front, k - 1);
      assert forall i :: 0 <= i < |front| ==> front[i] == history[i];
      if history[|history| - 1].Failed? {
        assert FailuresSinceSuccess(history) >= k <==> FailuresSinceSuccess(front) >= k - 1;
      }
    }
  }

  /** The last n outcomes are all failures. */
  ghost predicate LastFailed(history: seq<Outcome>, n: int) {
    |history| >= n && forall i :: 0 <= i && |history| - n <= i < |history| ==> history[i].Failed?
  }

  /** The breaker refuses exactly when its last outcomes, as many as the failure threshold (or
      one, for a threshold that is not positive), were all failures and the newest is younger
      than the reset timeout. */
  lemma RefusesOnTrailingFailures(history: seq<Outcome>, threshold: int, resetTimeout: real, now: real)
    ensures threshold >= 1 ==>
              (Refuses(history, threshold, resetTimeout, now) <==>
                 LastFailed(history, threshold) && now - history[|history| - 1].at < resetTimeout)
    ensures threshold <= 0 ==>
              (Refuses(history, threshold, resetTimeout, now) <==>
                 LastFailed(history, 1) && now - history[|history| - 1].at < resetTimeout)
  {
    CountsTrailingFailures(history, if threshold >= 1 then threshold else 1);
    CountsTrailingFailures(history, 1);
  }

  /** What a caller sees in each phase: half open, like open, needs the trailing failures, but
      the newest of them is as old as the reset timeout; everything else is closed. */
  lemma PhaseByTrailingFailures(history: seq<Outcome>, threshold: int, resetTimeout: real, now: real)
    ensures var tripped := LastFailed(history, if threshold >= 1 then threshold else 1);
            var phase := PhaseOf(history, threshold, resetTimeout, now);
            && (phase.Closed? <==> !tripped)
            && (phase.Open? <==> tripped && now - history[|history| - 1].at < resetTimeout)
            && (phase.HalfOpen? <==> tripped && now - history[|history| - 1].at >= resetTimeout)
  {
    CountsTrailingFailures(history, if threshold >= 1 then threshold else 1);
    RefusesOnTrailingFailures(history, threshold, resetTimeout, now);
  }

  /** One success closes the breaker whatever came before: after it and `after` failures a
      request is refused exactly when these are as many as the failure threshold (or one,
      for a threshold that is not positive) and the newest is younger than the timeout. */
  lemma {:induction false} RecoversAfterSuccess(before: seq<Outcome>, after: seq<Outcome>, threshold: int,
                                                resetTimeout: real, now: real)
    requires forall i :: 0 <= i < |after| ==> after[i].Failed?
    ensures Refuses(before + [Succeeded] + after, threshold, resetTimeout, now) <==>
            && |after| >= 1 && |after| >= threshold
            && now - after[|after| - 1].at < resetTimeout
  {
    var history := before + [Succeeded] + after;
    var n := if threshold >= 1 then threshold else 1;
    RefusesOnTrailingFailures(history, threshold, resetTimeout, now);
    assert history[|before|] == Succeeded;
    assert after != [] ==> history[|history| - 1] == after[|after| - 1];
    if |after| >= n {
      forall i | |history| - n <= i < |history| ensures history[i].Failed? {
        assert history[i] == after[i - |before| - 1];
      }
    }
  }

  /** Once the timeout is served no request is refused, however many ask, until an outcome is recorded. */
  lemma HalfOpenRefusesNobody(history: seq<Outcome>, threshold: int, resetTimeout: real, now: real, later: real)
    requires PhaseOf(history, threshold, resetTimeout, now).HalfOpen? && now <= later
    ensures !Refuses(history, threshold, resetTimeout, later)
  {
  }
}
