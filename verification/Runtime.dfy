/** One provider's runtime (control_plane/reliability.py, class ProviderRuntime): circuit breaker, token bucket and
    concurrency bulkhead composed in `invoke`, as a machine over any number of interleaved calls.

    No lock body of the source suspends, so everything before the provider call (lines 152-163) and everything
    after it (lines 164-179) is one atomic step each; the provider call in between is the only suspension.  A call
    that was let through stays in flight until it returns, and the deadline cuts it off at the latest `deadline`
    after admission.  Cancellation from outside is assumed away. */
module Runtime {
  import Breaker
  import Bucket

  datatype Config = Config(breaker: Breaker.Config, bucket: Bucket.Config, maxConcurrency: nat, deadline: real)

  /** A call between its admission and its outcome. `probe` marks the one that was let through half-open. */
  datatype Call = Call(admittedAt: real, probe: bool)

  /** `now` is the latest clock reading; `freeSlots` the value of the semaphore.  The last two fields count events
      that the source does not count: tokens granted, and calls turned away by the bulkhead. */
  datatype State = State(
    now: real,
    breaker: Breaker.State,
    bucket: Bucket.State,
    freeSlots: int,
    inFlight: map<nat, Call>,
    nextId: nat,
    totalRequests: nat,
    totalSuccesses: nat,
    totalFailures: nat,
    tokensGranted: nat,
    overloaded: nat)

  /** How the part of `invoke` before the provider call ends: it goes on, or raises one of three errors. */
  datatype Admission = Admitted | CircuitRejected | RateLimited | Overloaded

  /** How the provider call ends; only `Answered` is a success (lines 164-179). */
  datatype Outcome = Answered | DeadlineExceeded | CallFailed | UnexpectedError

  datatype Event =
    | Invoke(checkedAt: real, acquiredAt: real)  // breaker clock, then bucket clock
    | Return(id: nat, outcome: Outcome, at: real)

  function Init(c: Config, now: real): State {
    State(now, Breaker.INITIAL, Bucket.Full(c.bucket, now), c.maxConcurrency, map[], 0, 0, 0, 0, 0, 0)
  }

  /** Lines 152-163: the breaker, then the bucket, then the bulkhead; each rejection leaves what came before. */
  function Admit(c: Config, s: State, checkedAt: real, acquiredAt: real): (State, Admission) {
    var (b, verdict) := Breaker.Allow(c.breaker, s.breaker, checkedAt);
    if !verdict.Granted? then
      (s.(now := checkedAt, breaker := b), CircuitRejected)
    else
      var (t, accepted) := Bucket.Acquire(c.bucket, s.bucket, acquiredAt);
      var s1 := s.(now := acquiredAt, breaker := b, bucket := t);
      if !accepted then
        (s1, RateLimited)
      else if s.freeSlots == 0 then
        (s1.(tokensGranted := s.tokensGranted + 1, overloaded := s.overloaded + 1), Overloaded)
      else
        (s1.(tokensGranted := s.tokensGranted + 1,
             totalRequests := s.totalRequests + 1,
             freeSlots := s.freeSlots - 1,
             inFlight := s.inFlight[s.nextId := Call(acquiredAt, b.circuit.HalfOpen?)],
             nextId := s.nextId + 1),
         Admitted)
  }

  /** Lines 164-179: the slot is given back, the counters and then the breaker are told. */
  function Finish(c: Config, s: State, id: nat, outcome: Outcome, at: real): State {
    var s1 := s.(now := at, freeSlots := s.freeSlots + 1, inFlight := s.inFlight - {id});
    if outcome.Answered?
    then s1.(totalSuccesses := s.totalSuccesses + 1, breaker := Breaker.RecordSuccess(s.breaker))
    else s1.(totalFailures := s.totalFailures + 1, breaker := Breaker.RecordFailure(c.breaker, s.breaker, at))
  }

  function Step(c: Config, s: State, e: Event): State {
    match e
    case Invoke(checkedAt, acquiredAt) => Admit(c, s, checkedAt, acquiredAt).0
    case Return(id, outcome, at) => Finish(c, s, id, outcome, at)
  }

  /** The deadline fires on time: no call is in flight longer than the deadline. */
  ghost predicate DeadlinesHold(c: Config, s: State, t: real) {
    forall id :: id in s.inFlight ==> t <= s.inFlight[id].admittedAt + c.deadline
  }

  /** The clock does not go back, deadlines fire on time, and only calls in flight return. */
  ghost predicate Enabled(c: Config, s: State, e: Event) {
    match e
    case Invoke(checkedAt, acquiredAt) => s.now <= checkedAt <= acquiredAt && DeadlinesHold(c, s, acquiredAt)
    case Return(id, _, at) => id in s.inFlight && s.now <= at && DeadlinesHold(c, s, at)
  }

  function Execute(c: Config, s: State, events: seq<Event>): State
    decreases |events|
  {
    if events == [] then s else Execute(c, Step(c, s, events[0]), events[1..])
  }

  ghost predicate ValidRun(c: Config, s: State, events: seq<Event>)
    decreases |events|
  {
    events != [] ==> Enabled(c, s, events[0]) && ValidRun(c, Step(c, s, events[0]), events[1..])
  }

  ghost predicate Reachable(c: Config, start: real, s: State) {
    exists events :: ValidRun(c, Init(c, start), events) && Execute(c, Init(c, start), events) == s
  }

  // ---------------------------------------------------------------------------------------------
  // The invariant of every run
  // ---------------------------------------------------------------------------------------------

  /** A token's worth of refill fits in the recovery interval. */
  predicate RefillsWithinRecovery(c: Config) {
    c.breaker.recoveryTimeout * c.bucket.rate >= 1.0
  }

  /** Every call that was in flight when the circuit opened is over before a probe may start. */
  predicate DeadlineBelowRecovery(c: Config) {
    c.deadline < c.breaker.recoveryTimeout
  }

  /** Conservation: slots, requests and tokens. */
  ghost predicate Accounting(c: Config, s: State) {
    && 0 <= s.freeSlots
    && s.freeSlots + |s.inFlight| == c.maxConcurrency
    && s.totalRequests == s.totalSuccesses + s.totalFailures + |s.inFlight|
    && s.tokensGranted == s.totalRequests + s.overloaded
    && (forall id :: id in s.inFlight ==> id < s.nextId)
  }

  ghost predicate BreakerInvariant(c: Config, s: State) {
    && (s.breaker.probeInFlight <==> s.breaker.circuit.HalfOpen?)
    && (s.breaker.circuit.Closed? <==> s.breaker.failures < Breaker.EffectiveThreshold(c.breaker))
    && (!s.breaker.circuit.Closed? ==> s.breaker.openedAt <= s.now)
  }

  ghost predicate Timing(c: Config, s: State) {
    && s.bucket.updatedAt <= s.now
    && (s.bucket.tokens >= 0.0 || s.bucket.tokens == c.bucket.capacity)
    && s.bucket.tokens <= c.bucket.capacity
    && (forall id :: id in s.inFlight ==> s.inFlight[id].admittedAt <= s.now)
    && (s.inFlight != map[] ==> c.bucket.capacity >= 1.0)
  }

  /** While the circuit is open nothing has been admitted and no token drawn since it opened, and the call whose
      failure opened it has given its slot back. */
  ghost predicate OpenInvariant(c: Config, s: State) {
    s.breaker.circuit.Open? ==>
      && s.freeSlots >= 1
      && c.bucket.capacity >= 1.0
      && s.bucket.updatedAt <= s.breaker.openedAt
      && (forall id :: id in s.inFlight ==> s.inFlight[id].admittedAt <= s.breaker.openedAt)
  }

  /** A half-open circuit has its probe in flight. */
  ghost predicate ProbeRuns(c: Config, s: State) {
    s.breaker.circuit.HalfOpen? ==>
      exists id :: id in s.inFlight && s.inFlight[id].probe
                && s.inFlight[id].admittedAt >= s.breaker.openedAt + c.breaker.recoveryTimeout
  }

  /** A half-open circuit has at most one call in flight, and it is a probe. */
  ghost predicate NothingButProbe(c: Config, s: State) {
    s.breaker.circuit.HalfOpen? ==> |s.inFlight| <= 1 && forall id :: id in s.inFlight ==> s.inFlight[id].probe
  }

  ghost predicate Invariant(c: Config, s: State) {
    && Accounting(c, s)
    && BreakerInvariant(c, s)
    && Timing(c, s)
    && OpenInvariant(c, s)
    && (RefillsWithinRecovery(c) ==> ProbeRuns(c, s))
    && (DeadlineBelowRecovery(c) ==> NothingButProbe(c, s))
  }

  /** What the source's callers configure: a rate that is not negative. */
  predicate WellConfigured(c: Config) {
    c.bucket.rate >= 0.0
  }

  lemma InitInvariant(c: Config, now: real)
    ensures Invariant(c, Init(c, now))
  {
  }

  /** After a recovery interval without a draw the bucket holds a token, whatever it held before. */
  lemma RecoveredBucketAccepts(c: Bucket.Config, s: Bucket.State, since: real, wait: real, t: real)
    requires s.tokens >= 0.0 && c.capacity >= 1.0 && c.rate >= 0.0
    requires s.updatedAt <= since && since + wait <= t && wait * c.rate >= 1.0
    ensures Bucket.Acquire(c, s, t).1
  {
    if wait <= 0.0 {
      Bucket.Growing(c.rate, -wait);
      assert false;
    }
    var extra := t - s.updatedAt - wait;
    Bucket.Growing(c.rate, extra);
    Bucket.Distribute(c.rate, wait, extra);
    assert wait + extra == Bucket.Max(0.0, t - s.updatedAt);
  }

  lemma BucketStep(c: Bucket.Config, s: Bucket.State, t: real)
    requires c.rate >= 0.0 && s.updatedAt <= t
    requires (s.tokens >= 0.0 || s.tokens == c.capacity) && s.tokens <= c.capacity
    ensures var (s', ok) := Bucket.Acquire(c, s, t);
            && s'.updatedAt == t
            && (s'.tokens >= 0.0 || s'.tokens == c.capacity)
            && s'.tokens <= c.capacity
            && (ok ==> c.capacity >= 1.0)
  {
    Bucket.Growing(c.rate, t - s.updatedAt);
  }

  /** Nothing in flight can have survived from before the circuit opened to the end of the recovery interval. */
  lemma NothingSurvivesRecovery(c: Config, s: State, t: real)
    requires OpenInvariant(c, s) && s.breaker.circuit.Open?
    requires DeadlineBelowRecovery(c) && DeadlinesHold(c, s, t)
    requires t - s.breaker.openedAt >= c.breaker.recoveryTimeout
    ensures s.inFlight == map[]
  {
    assert forall id :: id !in s.inFlight;
  }

  /** In every state that satisfies the invariant a probe that the breaker lets through also gets its slot, and
      under the refill condition its token. */
  lemma ProbeGetsThrough(c: Config, s: State, checkedAt: real, acquiredAt: real)
    requires WellConfigured(c) && Invariant(c, s) && Enabled(c, s, Invoke(checkedAt, acquiredAt))
    requires !s.breaker.circuit.Closed? && Breaker.Allow(c.breaker, s.breaker, checkedAt).1.Granted?
    ensures s.breaker.circuit.Open? && s.freeSlots >= 1
    ensures !Admit(c, s, checkedAt, acquiredAt).1.Overloaded?
    ensures RefillsWithinRecovery(c) ==> Admit(c, s, checkedAt, acquiredAt).1 == Admitted
  {
    if RefillsWithinRecovery(c) {
      RecoveredBucketAccepts(c.bucket, s.bucket, s.breaker.openedAt, c.breaker.recoveryTimeout, acquiredAt);
    }
  }

  lemma AdmitKeepsAccounting(c: Config, s: State, checkedAt: real, acquiredAt: real)
    requires Accounting(c, s)
    ensures Accounting(c, Admit(c, s, checkedAt, acquiredAt).0)
  {
    assert s.nextId !in s.inFlight;
  }

  lemma AdmitKeepsInvariant(c: Config, s: State, checkedAt: real, acquiredAt: real)
    requires WellConfigured(c) && Invariant(c, s) && Enabled(c, s, Invoke(checkedAt, acquiredAt))
    ensures Invariant(c, Admit(c, s, checkedAt, acquiredAt).0)
  {
    var (s', admission) := Admit(c, s, checkedAt, acquiredAt);
    AdmitKeepsAccounting(c, s, checkedAt, acquiredAt);
    BucketStep(c.bucket, s.bucket, acquiredAt);
    var verdict := Breaker.Allow(c.breaker, s.breaker, checkedAt).1;
    if verdict.Granted? && !s.breaker.circuit.Closed? {
      ProbeGetsThrough(c, s, checkedAt, acquiredAt);
      if DeadlineBelowRecovery(c) {
        NothingSurvivesRecovery(c, s, acquiredAt);
      }
      if RefillsWithinRecovery(c) {
        assert s.nextId in s'.inFlight && s'.inFlight[s.nextId] == Call(acquiredAt, true);
      }
    } else if s.breaker.circuit.HalfOpen? {
      assert s'.inFlight == s.inFlight;
    }
  }

  lemma RemoveOne<V>(m: map<nat, V>, id: nat)
    requires id in m
    ensures |m - {id}| == |m| - 1
  {
    assert (m - {id}).Keys == m.Keys - {id};
  }

  lemma FinishKeepsInvariant(c: Config, s: State, id: nat, outcome: Outcome, at: real)
    requires Invariant(c, s) && Enabled(c, s, Return(id, outcome, at))
    ensures Invariant(c, Finish(c, s, id, outcome, at))
  {
    RemoveOne(s.inFlight, id);
  }

  // ---------------------------------------------------------------------------------------------
  // Theorems about every reachable state
  // ---------------------------------------------------------------------------------------------

  lemma {:induction false} RunKeepsInvariant(c: Config, s: State, events: seq<Event>)
    requires WellConfigured(c) && Invariant(c, s) && ValidRun(c, s, events)
    ensures Invariant(c, Execute(c, s, events))
    decreases |events|
  {
    if events != [] {
      match events[0] {
        case Invoke(checkedAt, acquiredAt) => AdmitKeepsInvariant(c, s, checkedAt, acquiredAt);
        case Return(id, outcome, at) => FinishKeepsInvariant(c, s, id, outcome, at);
      }
      RunKeepsInvariant(c, Step(c, s, events[0]), events[1..]);
    }
  }

  lemma ReachableInvariant(c: Config, start: real, s: State)
    requires WellConfigured(c) && Reachable(c, start, s)
    ensures Invariant(c, s)
  {
    var events :| ValidRun(c, Init(c, start), events) && Execute(c, Init(c, start), events) == s;
    InitInvariant(c, start);
    RunKeepsInvariant(c, Init(c, start), events);
  }

  /** Recovery never wedges.  In every reachable state of every interleaving a half-open circuit has exactly one
      call in flight, the probe, so only the probe's outcome can resolve it; and a probe that the breaker lets
      through always gets its token and its slot. */
  lemma RecoveryNeverWedges(c: Config, start: real, s: State)
    requires WellConfigured(c) && RefillsWithinRecovery(c) && DeadlineBelowRecovery(c)
    requires Reachable(c, start, s)
    ensures s.breaker.circuit.HalfOpen? ==> exists id :: s.inFlight.Keys == {id} && s.inFlight[id].probe
    ensures forall checkedAt, acquiredAt ::
              Enabled(c, s, Invoke(checkedAt, acquiredAt)) && !s.breaker.circuit.Closed? &&
              Breaker.Allow(c.breaker, s.breaker, checkedAt).1.Granted? ==>
                Admit(c, s, checkedAt, acquiredAt).1 == Admitted
  {
    ReachableInvariant(c, start, s);
    if s.breaker.circuit.HalfOpen? {
      var id :| id in s.inFlight && s.inFlight[id].probe;
      RemoveOne(s.inFlight, id);
      assert s.inFlight.Keys == {id} by {
        assert |s.inFlight.Keys - {id}| == 0;
        assert s.inFlight.Keys - {id} == {};
      }
    }
    forall checkedAt, acquiredAt |
      Enabled(c, s, Invoke(checkedAt, acquiredAt)) && !s.breaker.circuit.Closed? &&
      Breaker.Allow(c.breaker, s.breaker, checkedAt).1.Granted?
      ensures Admit(c, s, checkedAt, acquiredAt).1 == Admitted
    {
      ProbeGetsThrough(c, s, checkedAt, acquiredAt);
    }
  }

  /** The bulkhead never turns a probe away, whatever the deadline, the rate and the recovery timeout are. */
  lemma BulkheadNeverDropsProbe(c: Config, start: real, s: State, checkedAt: real, acquiredAt: real)
    requires WellConfigured(c) && Reachable(c, start, s) && Enabled(c, s, Invoke(checkedAt, acquiredAt))
    requires !s.breaker.circuit.Closed? && Breaker.Allow(c.breaker, s.breaker, checkedAt).1.Granted?
    ensures !Admit(c, s, checkedAt, acquiredAt).1.Overloaded?
  {
    ReachableInvariant(c, start, s);
    ProbeGetsThrough(c, s, checkedAt, acquiredAt);
  }

  /** Per runtime: free slots and calls in flight make up the bulkhead, every counted request is a success, a
      failure or still in flight, and every token granted was a counted request or an overload rejection. */
  lemma AccountingLaws(c: Config, start: real, s: State)
    requires WellConfigured(c) && Reachable(c, start, s)
    ensures s.freeSlots + |s.inFlight| == c.maxConcurrency
    ensures s.totalRequests == s.totalSuccesses + s.totalFailures + |s.inFlight|
    ensures s.tokensGranted == s.totalRequests + s.overloaded
  {
    ReachableInvariant(c, start, s);
  }

  // ---------------------------------------------------------------------------------------------
  // The class
  // ---------------------------------------------------------------------------------------------

  class ProviderRuntime {
    const config: Config
    const breaker: Breaker.CircuitBreaker
    const limiter: Bucket.TokenBucket
    var freeSlots: int
    var totalRequests: nat
    var totalSuccesses: nat
    var totalFailures: nat
    ghost var now: real
    ghost var inFlight: map<nat, Call>
    ghost var nextId: nat
    ghost var tokensGranted: nat
    ghost var overloaded: nat

    ghost predicate Valid()
      reads this
    {
      breaker.config == config.breaker && limiter.config == config.bucket
    }

    constructor (config: Config, now: real)
      ensures this.config == config && Valid() && fresh(breaker) && fresh(limiter)
      ensures Value() == Init(config, now)
    {
      this.config := config;
      breaker := new Breaker.CircuitBreaker(config.breaker);
      limiter := new Bucket.TokenBucket(config.bucket, now);
      freeSlots := config.maxConcurrency;
      totalRequests, totalSuccesses, totalFailures := 0, 0, 0;
      this.now, inFlight, nextId, tokensGranted, overloaded := now, map[], 0, 0, 0;
    }

    ghost function Value(): State
      reads this, breaker, limiter
    {
      State(now, breaker.Value(), limiter.Value(), freeSlots, inFlight, nextId,
            totalRequests, totalSuccesses, totalFailures, tokensGranted, overloaded)
    }

    /** `invoke` up to the provider call. */
    method BeginInvoke(checkedAt: real, acquiredAt: real) returns (admission: Admission)
      requires Valid()
      modifies this, breaker, limiter
      ensures Valid()
      ensures (Value(), admission) == Admit(config, old(Value()), checkedAt, acquiredAt)
    {
      now := checkedAt;
      var verdict := breaker.AllowRequest(checkedAt);
      if verdict != Breaker.Granted {
        return CircuitRejected;
      }
      now := acquiredAt;
      var accepted := limiter.TryAcquire(acquiredAt);
      if !accepted {
        return RateLimited;
      }
      tokensGranted := tokensGranted + 1;
      if freeSlots == 0 {
        overloaded := overloaded + 1;
        return Overloaded;
      }
      totalRequests := totalRequests + 1;
      freeSlots := freeSlots - 1;
      inFlight := inFlight[nextId := Call(acquiredAt, breaker.Value().circuit.HalfOpen?)];
      nextId := nextId + 1;
      return Admitted;
    }

    /** `invoke` after the provider call. */
    method EndInvoke(ghost id: nat, outcome: Outcome, at: real)
      requires Valid()
      modifies this, breaker
      ensures Valid()
      ensures Value() == Finish(config, old(Value()), id, outcome, at)
    {
      now := at;
      inFlight := inFlight - {id};
      freeSlots := freeSlots + 1;
      if outcome == Answered {
        totalSuccesses := totalSuccesses + 1;
        breaker.NoteSuccess();
      } else {
        totalFailures := totalFailures + 1;
        breaker.NoteFailure(at);
      }
    }
  }
}
